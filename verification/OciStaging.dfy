/** Commits as OCI artifacts: staging, publication, promotion and the shared blob index
    (internal/backend/ocibackend/write.go, layer.go, ocibackend.go). One repository. */
module OciStaging {
  import opened Common
  import opened StringOrder

  type Sha = string

  datatype Format = ModelPack | TarLayers

  /** None is the zero digest of a file not yet fetched. */
  datatype File = File(path: string, digest: Option<Digest>)

  datatype Manifest = Manifest(sha: Sha, files: seq<File>)

  /** Where a content lies: a window of a registry blob. */
  datatype Entry = Entry(layer: Digest, layerSize: nat, offset: nat, size: nat)

  type Index = map<Digest, Entry>

  datatype Layer = Layer(path: string, fileDigest: Digest, entry: Entry)

  /** A published commit: its manifest and one layer descriptor per file. */
  datatype Image = Image(manifest: Manifest, layers: seq<Layer>)

  /** A staged commit; refs is the comma-separated annotation. */
  datatype Staged = Staged(manifest: Manifest, refs: string)

  /** The registry's view of the repository, tags sorted by what they are for. */
  datatype Registry = Registry(
    commits: map<Sha, Image>,
    refs: map<string, Image>,
    staged: map<Sha, Staged>,
    index: Option<Index>,
    blobs: set<Digest>)

  /** Encodings fixed by libraries: tar header and trailer, JSON texts, file names. */
  datatype Codec = Codec(
    header: (string, nat) -> Bytes,
    trailer: nat -> Bytes,
    fileName: Digest -> string,
    manifest: Manifest -> Bytes,
    index: Index -> Bytes,
    config: seq<Digest> -> Bytes)

  const EMPTY_JSON: Bytes := [0x7b, 0x7d]

  // ---------------------------------------------------------------- the refs annotation

  function Join(refs: seq<string>): string {
    if refs == [] then "" else if |refs| == 1 then refs[0] else refs[0] + "," + Join(refs[1..])
  }

  function Split(s: string): (parts: seq<string>)
    ensures parts != []
  {
    if s == [] then [""]
    else
      var rest := Split(s[1..]);
      if s[0] == ',' then [""] + rest else [[s[0]] + rest[0]] + rest[1..]
  }

  /** The non-empty names in a list. */
  function Names(refs: seq<string>): set<string> {
    set r | r in refs && r != ""
  }

  lemma {:induction false} SplitPlain(s: string)
    requires ',' !in s
    ensures Split(s) == [s]
  {
    if s != [] {
      SplitPlain(s[1..]);
      assert [s[0]] + s[1..] == s;
    }
  }

  lemma {:induction false} SplitCons(a: string, s: string)
    requires ',' !in a
    ensures Split(a + "," + s) == [a] + Split(s)
  {
    var t := a + "," + s;
    if a == [] {
      assert t == "," + s && t[1..] == s;
    } else {
      SplitCons(a[1..], s);
      assert t[1..] == a[1..] + "," + s;
      assert [a[0]] + a[1..] == a;
      assert Split(t[1..])[1..] == Split(s);
    }
  }

  lemma {:induction false} SplitJoin(refs: seq<string>)
    requires refs != [] && forall r :: r in refs ==> ',' !in r
    ensures Split(Join(refs)) == refs
  {
    if |refs| == 1 {
      SplitPlain(refs[0]);
    } else {
      SplitJoin(refs[1..]);
      SplitCons(refs[0], Join(refs[1..]));
      assert [refs[0]] + refs[1..] == refs;
    }
  }

  lemma {:induction false} PiecesArePlain(s: string)
    ensures forall r :: r in Split(s) ==> ',' !in r
  {
    if s != [] {
      PiecesArePlain(s[1..]);
      var rest := Split(s[1..]);
      assert rest[0] in rest;
      forall r | r in Split(s) ensures ',' !in r {
        if s[0] != ',' && r != [s[0]] + rest[0] {
          assert r in rest[1..];
        }
      }
    }
  }

  /** Reading the annotation back gives the recorded refs exactly when none holds a comma. */
  lemma RefsSurviveExactlyWhen(refs: seq<string>)
    ensures Names(Split(Join(refs))) == Names(refs) <==> forall r :: r in refs ==> ',' !in r
  {
    if forall r :: r in refs ==> ',' !in r {
      if refs != [] { SplitJoin(refs); }
    } else {
      var r :| r in refs && ',' in r;
      PiecesArePlain(Join(refs));
      assert r in Names(refs) && r !in Names(Split(Join(refs)));
    }
  }

  // ---------------------------------------------------------------- locating contents

  function TarLayer(c: Codec, name: string, content: Bytes): Bytes {
    c.header(name, |content|) + content + c.trailer(|content|)
  }

  /** The index entry of a content in tar-layers format. */
  function EntryFor(c: Codec, d: Digest): Entry {
    var layer := TarLayer(c, c.fileName(d), d.content);
    Entry(Sha256(layer), |layer|, |c.header(c.fileName(d), |d.content|)|, |d.content|)
  }

  /** The window holds exactly the bytes whose digest is d. */
  predicate Holds(e: Entry, d: Digest) {
    e.offset + e.size <= |e.layer.content| == e.layerSize && e.layer.content[e.offset..e.offset + e.size] == d.content
  }

  lemma EntryHolds(c: Codec, d: Digest)
    ensures Holds(EntryFor(c, d), d)
  {
  }

  function IndexOf(reg: Registry): Index {
    if reg.index.Some? then reg.index.value else map[]
  }

  /** Where a file's content is, if it has arrived and is keyed by sha256. */
  function Locate(format: Format, reg: Registry, f: File): Option<Entry> {
    if f.digest.None? || f.digest.value.Sha1? then None
    else
      var d := f.digest.value;
      match format
      case ModelPack => if d in reg.blobs then Some(Entry(d, |d.content|, 0, |d.content|)) else None
      case TarLayers => if d in IndexOf(reg) then Some(IndexOf(reg)[d]) else None
  }

  /** The registry has the content: as a blob, or by an index entry. */
  predicate Present(format: Format, reg: Registry, d: Digest) {
    match format
    case ModelPack => d in reg.blobs
    case TarLayers => d in IndexOf(reg)
  }

  /** A file is located exactly when it is keyed by the sha256 of a content that is present; the
      entry is the index's, or the whole blob. */
  lemma LocatedExactlyWhen(format: Format, reg: Registry, f: File)
    ensures Locate(format, reg, f).Some? <==>
            f.digest.Some? && f.digest.value.Sha256? && Present(format, reg, f.digest.value)
    ensures Locate(format, reg, f).Some? ==>
              if format.TarLayers? then Locate(format, reg, f).value == IndexOf(reg)[f.digest.value]
              else Locate(format, reg, f).value.layer == f.digest.value && Holds(Locate(format, reg, f).value, f.digest.value)
  {
  }

  function Missing(format: Format, reg: Registry, files: seq<File>): seq<string> {
    if files == [] then []
    else
      var f := files[|files| - 1];
      Missing(format, reg, files[..|files| - 1]) + if Locate(format, reg, f).None? then [f.path] else []
  }

  function LayersOf(format: Format, reg: Registry, files: seq<File>): seq<Layer> {
    if files == [] then []
    else
      var f := files[|files| - 1];
      LayersOf(format, reg, files[..|files| - 1]) +
      match Locate(format, reg, f)
      case None => []
      case Some(e) => [Layer(f.path, f.digest.value, e)]
  }

  lemma {:induction false} NothingMissing(format: Format, reg: Registry, files: seq<File>)
    ensures Missing(format, reg, files) == [] <==> forall i :: 0 <= i < |files| ==> Locate(format, reg, files[i]).Some?
  {
    hide Locate;
    if files != [] {
      NothingMissing(format, reg, files[..|files| - 1]);
      assert files == files[..|files| - 1] + [files[|files| - 1]];
    }
  }

  /** The paths reported missing are those of the files that are not located. */
  lemma {:induction false} MissingMeans(format: Format, reg: Registry, files: seq<File>, p: string)
    ensures p in Missing(format, reg, files) <==>
            exists i :: 0 <= i < |files| && files[i].path == p && Locate(format, reg, files[i]).None?
  {
    hide Locate;
    if files != [] {
      var n := |files| - 1;
      MissingMeans(format, reg, files[..n], p);
      assert forall i :: 0 <= i < n ==> files[..n][i] == files[i];
    }
  }

  /** A complete manifest has one layer per file, in order. */
  lemma {:induction false} LayersMatch(format: Format, reg: Registry, files: seq<File>)
    requires forall i :: 0 <= i < |files| ==> Locate(format, reg, files[i]).Some?
    ensures |LayersOf(format, reg, files)| == |files|
    ensures forall i :: 0 <= i < |files| ==>
              files[i].digest.Some? &&
              LayersOf(format, reg, files)[i] == Layer(files[i].path, files[i].digest.value, Locate(format, reg, files[i]).value)
  {
    if files != [] {
      LayersMatch(format, reg, files[..|files| - 1]);
    }
  }

  // ---------------------------------------------------------------- registry requests

  datatype Tag = CommitTag(sha: Sha) | RefTag(name: string) | StagedTag(sha: Sha) | IndexTag

  /** One call to the registry, or one write to the pending map. given and read record, for
      history, the refs a staging was asked for and whether it could read its staged tag. */
  datatype Request =
    | PushBlob(digest: Digest)
    | PutCommit(image: Image)
    | PutRef(name: string, image: Image)
    | PutStaged(doc: Staged, given: seq<string>, read: bool)
    | DropStaged(sha: Sha)
    | PutIndex(index: Index)
    | DeleteTag(tag: Tag)
    | SetPending(value: bool)

  /** The registry together with this process's pending flag. */
  datatype World = World(reg: Registry, pending: bool)

  function Perform(w: World, q: Request): World {
    var reg := w.reg;
    match q
    case PushBlob(d) => w.(reg := reg.(blobs := reg.blobs + {d}))
    case PutCommit(image) => w.(reg := reg.(commits := reg.commits[image.manifest.sha := image]))
    case PutRef(name, image) => w.(reg := reg.(refs := reg.refs[name := image]))
    case PutStaged(doc, _, _) => w.(reg := reg.(staged := reg.staged[doc.manifest.sha := doc]))
    case DropStaged(sha) => w.(reg := reg.(staged := reg.staged - {sha}))
    case PutIndex(index) => w.(reg := reg.(index := Some(index)))
    case DeleteTag(tag) => w.(reg := Untag(reg, tag))
    case SetPending(value) => w.(pending := value)
  }

  function Untag(reg: Registry, tag: Tag): Registry {
    match tag
    case CommitTag(sha) => reg.(commits := reg.commits - {sha})
    case RefTag(name) => reg.(refs := reg.refs - {name})
    case StagedTag(sha) => reg.(staged := reg.staged - {sha})
    case IndexTag => reg.(index := None)
  }

  function PerformAll(w: World, qs: seq<Request>): World
    decreases |qs|
  {
    if qs == [] then w else PerformAll(Perform(w, qs[0]), qs[1..])
  }

  lemma {:induction false} PerformAllAppend(w: World, a: seq<Request>, b: seq<Request>)
    ensures PerformAll(w, a + b) == PerformAll(PerformAll(w, a), b)
    decreases |a|
  {
    hide Perform;
    if a == [] {
      assert a + b == b;
    } else {
      assert (a + b)[1..] == a[1..] + b;
      PerformAllAppend(Perform(w, a[0]), a[1..], b);
    }
  }

  function RefRequests(refs: seq<string>, image: Image): seq<Request> {
    seq(|refs|, i requires 0 <= i < |refs| => PutRef(refs[i], image))
  }

  /** The blobs pushed before a commit is tagged: its own manifest in the format's place. */
  function ManifestPushes(c: Codec, format: Format, m: Manifest, layers: seq<Layer>): seq<Request> {
    match format
    case ModelPack =>
      [PushBlob(Sha256(c.manifest(m)))] + if layers == [] then [PushBlob(Sha256(EMPTY_JSON))] else []
    case TarLayers =>
      var manifestLayer := Sha256(TarLayer(c, ".shpiel/manifest.json", c.manifest(m)));
      [PushBlob(manifestLayer),
       PushBlob(Sha256(c.config(seq(|layers|, i requires 0 <= i < |layers| => layers[i].entry.layer) + [manifestLayer])))]
  }

  /** publish: blobs, then the commit tag, then the refs, then the staged tag goes. */
  function PublishRequests(c: Codec, format: Format, m: Manifest, layers: seq<Layer>, refs: seq<string>): seq<Request> {
    var image := Image(m, layers);
    ManifestPushes(c, format, m, layers) + [PutCommit(image)] + RefRequests(refs, image) + [DropStaged(m.sha)]
  }

  /** The refs a staging records: those given and, if the staged tag can be read, those recorded
      before; a failing read is taken for a missing tag. */
  ghost function StagedRefs(reg: Registry, m: Manifest, refs: seq<string>, readable: bool): seq<string> {
    if readable && m.sha in reg.staged then Sorted(Names(refs + Split(reg.staged[m.sha].refs))) else refs
  }

  ghost function StageRequests(c: Codec, reg: Registry, m: Manifest, refs: seq<string>, readable: bool): seq<Request> {
    [PushBlob(Sha256(c.manifest(m))), PushBlob(Sha256(EMPTY_JSON)),
     PutStaged(Staged(m, Join(StagedRefs(reg, m, refs, readable))), refs, readable), SetPending(true)]
  }

  function SaveRequests(c: Codec, index: Index): seq<Request> {
    [PushBlob(Sha256(c.index(index))), PushBlob(Sha256(EMPTY_JSON)), PutIndex(index)]
  }

  ghost function PutOrStageRequests(c: Codec, format: Format, reg: Registry, m: Manifest, refs: seq<string>, readable: bool)
    : seq<Request>
  {
    if Missing(format, reg, m.files) != [] then StageRequests(c, reg, m, refs, readable)
    else PublishRequests(c, format, m, LayersOf(format, reg, m.files), refs)
  }

  /** What promotion does with one staged commit; a failing read is taken for a missing tag. */
  ghost function PromoteRequests(c: Codec, format: Format, reg: Registry, sha: Sha, readable: bool): seq<Request> {
    if !readable || sha !in reg.staged || Missing(format, reg, reg.staged[sha].manifest.files) != [] then []
    else
      var m := reg.staged[sha].manifest;
      PublishRequests(c, format, m, LayersOf(format, reg, m.files), Sorted(Names(Split(reg.staged[sha].refs))))
  }

  predicate LeavesStaged(format: Format, reg: Registry, sha: Sha, readable: bool) {
    readable && sha in reg.staged && Missing(format, reg, reg.staged[sha].manifest.files) != []
  }

  /** promoteStaged over the listed staged commits. */
  ghost function Promoted(c: Codec, format: Format, w: World, shas: seq<Sha>, left: bool, readable: Sha -> bool): World
    decreases |shas|
  {
    if shas == [] then (if left then w else w.(pending := false))
    else
      Promoted(c, format, PerformAll(w, PromoteRequests(c, format, w.reg, shas[0], readable(shas[0]))), shas[1..],
               left || LeavesStaged(format, w.reg, shas[0], readable(shas[0])), readable)
  }

  /** A listing of a set: every member, each once. */
  ghost predicate Enumerates<T(!new)>(list: seq<T>, members: set<T>) {
    (forall x :: x in list <==> x in members) && forall i, j :: 0 <= i < j < |list| ==> list[i] != list[j]
  }

  predicate HasPending(w: World) { w.pending || w.reg.staged != map[] }

  function TagsOf(reg: Registry): set<Tag> {
    (set sha | sha in reg.commits :: CommitTag(sha)) + (set r | r in reg.refs :: RefTag(r)) +
    (set sha | sha in reg.staged :: StagedTag(sha)) + if reg.index.Some? then {IndexTag} else {}
  }

  lemma TagsMean(reg: Registry)
    ensures forall sha :: CommitTag(sha) in TagsOf(reg) <==> sha in reg.commits
    ensures forall r :: RefTag(r) in TagsOf(reg) <==> r in reg.refs
    ensures forall sha :: StagedTag(sha) in TagsOf(reg) <==> sha in reg.staged
    ensures IndexTag in TagsOf(reg) <==> reg.index.Some?
  {
  }

  lemma UntagKeepsIndex(reg: Registry, tag: Tag)
    ensures Untag(reg, tag).index == if tag == IndexTag then None else reg.index
  {
  }

  function DeleteRequests(tags: seq<Tag>): seq<Request> {
    seq(|tags|, i requires 0 <= i < |tags| => DeleteTag(tags[i]))
  }

  datatype PutError = NotSha256 | UnknownSize | ShortWrite | DigestMismatch

  /** Sending a content to the registry as a blob or a tar layer: what is stored, and the error if
      there is one. A modelpack blob that is there already is not even read; one of unknown size
      is stored under its own digest before it is compared with the one asked for, and a tar layer
      is stored before its content is checked. cut says whether the bytes up to a declared size that
      is too small reach the registry, which stores them if they are what was asked for. */
  function Uploaded(c: Codec, format: Format, reg: Registry, d: Digest, data: Bytes, size: int, cut: bool)
    : (Registry, Option<PutError>)
  {
    match format
    case ModelPack =>
      var stored := reg.(blobs := reg.blobs + {Sha256(data)});
      if d in reg.blobs then (reg, None)
      else if size >= 0 && |data| != size then
        (if cut && 0 < size < |data| && Sha256(data[..size]) == d then reg.(blobs := reg.blobs + {d}) else reg, Some(ShortWrite))
      else if Sha256(data) == d then (stored, None)
      else (if size < 0 then stored else reg, Some(DigestMismatch))
    case TarLayers =>
      if size < 0 then (reg, Some(UnknownSize))
      else if |data| != size then (reg, Some(ShortWrite))
      else
        (reg.(blobs := reg.blobs + {Sha256(TarLayer(c, c.fileName(d), data))}),
         if Sha256(data) == d then None else Some(DigestMismatch))
  }

  /** Which uploads are accepted, and what they leave: the content as a blob, or in the layer its
      index entry will name. A refused upload leaves at most its own bytes. */
  lemma UploadedExactly(c: Codec, format: Format, reg: Registry, d: Digest, data: Bytes, size: int, cut: bool)
    requires d.Sha256?
    ensures var (reg', error) := Uploaded(c, format, reg, d, data, size, cut);
            reg' == reg.(blobs := reg'.blobs) && reg.blobs <= reg'.blobs &&
            reg'.blobs <= reg.blobs + {d, Sha256(data), Sha256(TarLayer(c, c.fileName(d), data))} &&
            (error.None? <==>
               if format.ModelPack? && d in reg.blobs then true
               else Sha256(data) == d && (size == |data| || (size < 0 && format.ModelPack?))) &&
            (error.None? ==> if format.ModelPack? then d in reg'.blobs else EntryFor(c, d).layer in reg'.blobs) &&
            (error == Some(UnknownSize) <==> format.TarLayers? && size < 0) &&
            (error == Some(ShortWrite) <==> !(format.ModelPack? && d in reg.blobs) && size >= 0 && size != |data|)
  {
    hide TarLayer;
  }

  /** Requests that neither write the index nor delete tags keep the index and every blob. */
  predicate KeepsIndex(todo: seq<Request>) {
    forall q :: q in todo ==> !q.PutIndex? && !q.DeleteTag?
  }

  lemma {:induction false} PerformKeepsIndex(w: World, todo: seq<Request>)
    requires KeepsIndex(todo)
    ensures PerformAll(w, todo).reg.index == w.reg.index && w.reg.blobs <= PerformAll(w, todo).reg.blobs
    decreases |todo|
  {
    if todo != [] {
      assert todo[0] in todo && KeepsIndex(todo[1..]);
      PerformKeepsIndex(Perform(w, todo[0]), todo[1..]);
    }
  }

  lemma PublishKeepsIndex(c: Codec, format: Format, m: Manifest, layers: seq<Layer>, refs: seq<string>)
    ensures KeepsIndex(PublishRequests(c, format, m, layers, refs))
  {
  }

  lemma {:induction false} PromotedKeepsIndex(c: Codec, format: Format, w: World, shas: seq<Sha>, left: bool, readable: Sha -> bool)
    ensures var w' := Promoted(c, format, w, shas, left, readable);
            w'.reg.index == w.reg.index && w.reg.blobs <= w'.reg.blobs
    decreases |shas|
  {
    hide PerformAll, PublishRequests, LayersOf, Missing, Sorted, Split, Names, KeepsIndex, LeavesStaged;
    if shas != [] {
      var todo := PromoteRequests(c, format, w.reg, shas[0], readable(shas[0]));
      if todo != [] {
        var m := w.reg.staged[shas[0]].manifest;
        PublishKeepsIndex(c, format, m, LayersOf(format, w.reg, m.files), Sorted(Names(Split(w.reg.staged[shas[0]].refs))));
        PerformKeepsIndex(w, todo);
      } else {
        PerformNone(w);
      }
      PromotedKeepsIndex(c, format, PerformAll(w, todo), shas[1..], left || LeavesStaged(format, w.reg, shas[0], readable(shas[0])), readable);
    }
  }

  lemma PerformNone(w: World)
    ensures PerformAll(w, []) == w
  {
  }

  lemma PerformOne(w: World, qs: seq<Request>)
    requires |qs| == 1
    ensures PerformAll(w, qs) == Perform(w, qs[0])
  {
    hide Perform;
  }

  lemma PerformTwo(w: World, qs: seq<Request>)
    requires |qs| == 2
    ensures PerformAll(w, qs) == Perform(Perform(w, qs[0]), qs[1])
  {
    hide Perform;
    PerformOne(Perform(w, qs[0]), qs[1..]);
  }

  lemma PerformThree(w: World, qs: seq<Request>)
    requires |qs| == 3
    ensures PerformAll(w, qs) == Perform(Perform(Perform(w, qs[0]), qs[1]), qs[2])
  {
    hide Perform;
    PerformTwo(Perform(w, qs[0]), qs[1..]);
  }

  lemma PerformFour(w: World, qs: seq<Request>)
    requires |qs| == 4
    ensures PerformAll(w, qs) == Perform(Perform(Perform(Perform(w, qs[0]), qs[1]), qs[2]), qs[3])
  {
    hide Perform;
    PerformThree(Perform(w, qs[0]), qs[1..]);
  }

  lemma PerformOneMore(w: World, qs: seq<Request>, q: Request)
    ensures PerformAll(w, qs + [q]) == Perform(PerformAll(w, qs), q)
  {
    PerformAllAppend(w, qs, [q]);
    PerformOne(PerformAll(w, qs), [q]);
    hide Perform;
  }

  lemma NoRefRequests(refs: seq<string>, image: Image)
    ensures RefRequests(refs[..0], image) == []
  {
  }

  lemma RefRequestsGrow(refs: seq<string>, i: nat, image: Image)
    requires i < |refs|
    ensures RefRequests(refs[..i + 1], image) == RefRequests(refs[..i], image) + [PutRef(refs[i], image)]
  {
  }

  lemma NothingListed(reg: Registry)
    requires reg.staged.Keys == {}
    ensures reg.staged == map[]
  {
  }

  lemma PromotedEnd(c: Codec, format: Format, w: World, left: bool, readable: Sha -> bool)
    ensures Promoted(c, format, w, [], left, readable) == if left then w else w.(pending := false)
  {
  }

  lemma PromotedStep(c: Codec, format: Format, w: World, shas: seq<Sha>, left: bool, readable: Sha -> bool)
    requires shas != []
    ensures Promoted(c, format, w, shas, left, readable) ==
            Promoted(c, format, PerformAll(w, PromoteRequests(c, format, w.reg, shas[0], readable(shas[0]))), shas[1..],
                     left || LeavesStaged(format, w.reg, shas[0], readable(shas[0])), readable)
  {
  }

  // ---------------------------------------------------------------- the backend

  class Backend {
    var reg: Registry
    var pending: bool
    const c: Codec
    const format: Format

    ghost function Now(): World
      reads this
    {
      World(reg, pending)
    }

    constructor (c: Codec, format: Format, reg: Registry)
      ensures this.c == c && this.format == format && Now() == World(reg, false)
    {
      this.c, this.format, this.reg, this.pending := c, format, reg, false;
    }

    /** One registry call. */
    method Do(q: Request)
      modifies this`reg, this`pending
      ensures Now() == Perform(old(Now()), q)
    {
      var w := Perform(World(reg, pending), q);
      reg, pending := w.reg, w.pending;
    }

    method LayersFor(files: seq<File>) returns (missing: seq<string>, layers: seq<Layer>)
      ensures missing == Missing(format, reg, files) && layers == LayersOf(format, reg, files)
    {
      missing, layers := [], [];
      var idx: Index := map[];
      if format.TarLayers? {
        idx := LoadIndex();
      }
      for i := 0 to |files|
        invariant missing == Missing(format, reg, files[..i]) && layers == LayersOf(format, reg, files[..i])
      {
        assert files[..i + 1][..i] == files[..i];
        var f := files[i];
        if f.digest.None? || f.digest.value.Sha1? {
          missing := missing + [f.path];
          continue;
        }
        var d := f.digest.value;
        match format {
          case ModelPack =>
            if d !in reg.blobs {
              missing := missing + [f.path];
              continue;
            }
            layers := layers + [Layer(f.path, d, Entry(d, |d.content|, 0, |d.content|))];
          case TarLayers =>
            if d !in idx {
              missing := missing + [f.path];
              continue;
            }
            layers := layers + [Layer(f.path, d, idx[d])];
        }
      }
      assert files[..|files|] == files;
    }

    method LoadIndex() returns (idx: Index)
      ensures idx == IndexOf(reg)
    {
      if reg.index.None? {
        return map[];
      }
      return reg.index.value;
    }

    method SaveIndex(idx: Index)
      modifies this`reg, this`pending
      ensures Now() == PerformAll(old(Now()), SaveRequests(c, idx))
    {
      hide Perform;
      ghost var w := Now();
      Do(PushBlob(Sha256(c.index(idx))));
      Do(PushBlob(Sha256(EMPTY_JSON)));
      Do(PutIndex(idx));
      PerformThree(w, SaveRequests(c, idx));
    }

    method Publish(m: Manifest, layers: seq<Layer>, refs: seq<string>)
      modifies this`reg, this`pending
      ensures Now() == PerformAll(old(Now()), PublishRequests(c, format, m, layers, refs))
    {
      hide Perform, PerformAll, RefRequests, ManifestPushes;
      ghost var w := Now();
      var image := Image(m, layers);
      PushManifest(m, layers);
      ghost var pushes := ManifestPushes(c, format, m, layers);
      Do(PutCommit(image));
      PerformOneMore(w, pushes, PutCommit(image));
      ghost var first := pushes + [PutCommit(image)];
      assert first + RefRequests(refs[..0], image) == first by { NoRefRequests(refs, image); }
      for i := 0 to |refs|
        invariant Now() == PerformAll(w, first + RefRequests(refs[..i], image))
      {
        Do(PutRef(refs[i], image));
        PerformOneMore(w, first + RefRequests(refs[..i], image), PutRef(refs[i], image));
        RefRequestsGrow(refs, i, image);
        assert first + RefRequests(refs[..i + 1], image) == first + RefRequests(refs[..i], image) + [PutRef(refs[i], image)];
      }
      assert refs[..|refs|] == refs;
      Do(DropStaged(m.sha));
      PerformOneMore(w, first + RefRequests(refs, image), DropStaged(m.sha));
    }

    method PushManifest(m: Manifest, layers: seq<Layer>)
      modifies this`reg, this`pending
      ensures Now() == PerformAll(old(Now()), ManifestPushes(c, format, m, layers))
    {
      hide Perform;
      ghost var w := Now();
      match format {
        case ModelPack =>
          Do(PushBlob(Sha256(c.manifest(m))));
          if |layers| == 0 {
            Do(PushBlob(Sha256(EMPTY_JSON)));
            PerformTwo(w, ManifestPushes(c, format, m, layers));
          } else {
            PerformOne(w, ManifestPushes(c, format, m, layers));
          }
        case TarLayers =>
          var manifestLayer := Sha256(TarLayer(c, ".shpiel/manifest.json", c.manifest(m)));
          Do(PushBlob(manifestLayer));
          var diffIDs: seq<Digest> := [];
          for i := 0 to |layers|
            invariant diffIDs == seq(i, j requires 0 <= j < i => layers[j].entry.layer)
            invariant Now() == Perform(w, PushBlob(manifestLayer))
          {
            diffIDs := diffIDs + [layers[i].entry.layer];
          }
          assert diffIDs == seq(|layers|, i requires 0 <= i < |layers| => layers[i].entry.layer);
          Do(PushBlob(Sha256(c.config(diffIDs + [manifestLayer]))));
          PerformTwo(w, ManifestPushes(c, format, m, layers));
      }
    }

    /** readable says whether the read of an existing staged tag succeeds. */
    method Stage(m: Manifest, refs: seq<string>, readable: bool)
      modifies this`reg, this`pending
      ensures Now() == PerformAll(old(Now()), StageRequests(c, old(reg), m, refs, readable))
    {
      hide Perform, Split, Join, Sorted;
      ghost var w := Now();
      var merged := refs;
      if readable && m.sha in reg.staged {
        merged := MergeRefs(refs, Split(reg.staged[m.sha].refs));
      }
      Do(PushBlob(Sha256(c.manifest(m))));
      Do(PushBlob(Sha256(EMPTY_JSON)));
      Do(PutStaged(Staged(m, Join(merged)), refs, readable));
      Do(SetPending(true));
      PerformFour(w, StageRequests(c, w.reg, m, refs, readable));
    }

    method MergeRefs(a: seq<string>, b: seq<string>) returns (merged: seq<string>)
      ensures merged == Sorted(Names(a + b))
    {
      var names: set<string> := {};
      var all := a + b;
      for i := 0 to |all|
        invariant names == Names(all[..i])
      {
        if all[i] != "" {
          names := names + {all[i]};
        }
        assert all[..i + 1] == all[..i] + [all[i]];
      }
      assert all[..|all|] == all;
      merged := SortStrings(names);
    }

    /** Caller holds the repo lock. */
    method PutOrStage(m: Manifest, refs: seq<string>, readable: bool)
      modifies this`reg, this`pending
      ensures Now() == PerformAll(old(Now()), PutOrStageRequests(c, format, old(reg), m, refs, readable))
    {
      var missing, layers := LayersFor(m.files);
      if |missing| > 0 {
        Stage(m, refs, readable);
      } else {
        Publish(m, layers, refs);
      }
    }

    /** PutManifest: the refs of this commit, in order. */
    method PutManifest(m: Manifest, refs: map<string, Sha>, readable: bool)
      modifies this`reg, this`pending
      ensures Now() == PerformAll(old(Now()),
                PutOrStageRequests(c, format, old(reg), m, Sorted(set r | r in refs && refs[r] == m.sha), readable))
    {
      var mine := RefsFor(refs, m.sha);
      PutOrStage(m, mine, readable);
    }

    method RefsFor(refs: map<string, Sha>, sha: Sha) returns (mine: seq<string>)
      ensures mine == Sorted(set r | r in refs && refs[r] == sha)
    {
      var names: set<string> := {};
      var todo := refs.Keys;
      while todo != {}
        invariant todo <= refs.Keys
        invariant names == set r | r in refs && r !in todo && refs[r] == sha
        decreases |todo|
      {
        var r :| r in todo;
        todo := todo - {r};
        if refs[r] == sha {
          names := names + {r};
        }
      }
      assert names == set r | r in refs && refs[r] == sha;
      mine := SortStrings(names);
    }

    /** Caller holds the repo lock. readable says which staged tags can be read; the others are
        passed over and do not count as left. */
    method PromoteStaged(readable: Sha -> bool) returns (ghost shas: seq<Sha>)
      modifies this`reg, this`pending
      ensures Enumerates(shas, old(reg).staged.Keys)
      ensures Now() == Promoted(c, format, old(Now()), shas, false, readable)
    {
      hide PerformAll, Perform, PublishRequests, Sorted, LayersOf, Missing, Promoted, Enumerates;
      var tags := ListStaged();
      shas := tags;
      var stagedLeft := false;
      for i := 0 to |tags|
        invariant Promoted(c, format, old(Now()), shas, false, readable) == Promoted(c, format, Now(), tags[i..], stagedLeft, readable)
      {
        var sha := tags[i];
        PromotedStep(c, format, Now(), tags[i..], stagedLeft, readable);
        assert tags[i..][1..] == tags[i + 1..];
        if !readable(sha) || sha !in reg.staged {
          PerformNone(Now());
          continue;
        }
        var m := reg.staged[sha].manifest;
        var refs := Split(reg.staged[sha].refs);
        var missing, layers := LayersFor(m.files);
        if |missing| > 0 {
          PerformNone(Now());
          stagedLeft := true;
          continue;
        }
        var merged := MergeRefs([], refs);
        assert [] + refs == refs;
        Publish(m, layers, merged);
      }
      PromotedEnd(c, format, Now(), stagedLeft, readable);
      if !stagedLeft {
        pending := false;
      }
    }

    /** The staged tags in the order the registry lists them. */
    method ListStaged() returns (shas: seq<Sha>)
      ensures Enumerates(shas, reg.staged.Keys)
    {
      shas := [];
      var todo := reg.staged.Keys;
      while todo != {}
        invariant todo <= reg.staged.Keys
        invariant Enumerates(shas, reg.staged.Keys - todo)
        decreases |todo|
      {
        var sha :| sha in todo;
        shas := shas + [sha];
        todo := todo - {sha};
      }
    }

    /** Whether promotion may have work; after a restart the registry's tags say so, unless they
        cannot be listed. */
    method CheckPending(listable: bool) returns (known: bool)
      modifies this`pending
      ensures known == (old(pending) || (listable && HasPending(old(Now())))) && pending == known
    {
      if pending {
        return true;
      }
      if !listable {
        return false;
      }
      var staged := ListStaged();
      if |staged| > 0 {
        assert staged[0] in reg.staged;
        pending := true;
        return true;
      }
      NothingListed(reg);
      return false;
    }

    /** The three phases of PutBlob with nobody else in between. */
    method PutBlob(d: Digest, data: Bytes, size: int, cut: bool, listable: bool, readable: Sha -> bool)
      returns (r: Result<bool, PutError>, ghost shas: seq<Sha>)
      modifies this`reg, this`pending
      ensures d.Sha1? ==> r == Err(NotSha256) && Now() == old(Now())
      ensures d.Sha256? && AlreadyHeld(format, old(reg), d) ==> r == Ok(true) && Now() == old(Now())
      ensures d.Sha256? && !AlreadyHeld(format, old(reg), d) ==>
                var (uploaded, error) := Uploaded(c, format, old(reg), d, data, size, cut);
                (error.Some? ==> r == Err(error.value) && Now() == World(uploaded, old(pending))) &&
                (error.None? ==>
                   var w := Indexed(c, format, World(uploaded, old(pending)), d);
                   r == Ok(true) &&
                   if w.pending || (listable && HasPending(w))
                   then Enumerates(shas, w.reg.staged.Keys) &&
                        Now() == Promoted(c, format, w.(pending := true), shas, false, readable)
                   else Now() == w)
      ensures r.Ok? <==> d.Sha256? && (Present(format, old(reg), d) ||
                                       (Sha256(data) == d && (size == |data| || (size < 0 && format.ModelPack?))))
      ensures r.Ok? ==> Present(format, reg, d)
      ensures r.Ok? && format.TarLayers? && !Present(format, old(reg), d) ==>
                IndexOf(reg)[d].layer in reg.blobs && Holds(IndexOf(reg)[d], d)
      ensures forall e :: e in IndexOf(old(reg)) ==> e in IndexOf(reg) && IndexOf(reg)[e] == IndexOf(old(reg))[e]
      ensures old(reg).blobs <= reg.blobs && (r.Err? ==> reg == old(reg).(blobs := reg.blobs) && pending == old(pending))
    {
      shas := [];
      if d.Sha256? {
        UploadedExactly(c, format, reg, d, data, size, cut);
        EntryHolds(c, d);
      }
      hide Uploaded, EntryFor, Holds, TarLayer;
      if d.Sha1? {
        return Err(NotSha256), shas;
      }
      if format.TarLayers? {
        var held := LoadIndex();
        if d in held {
          return Ok(true), shas;
        }
      }
      var (uploaded, error) := Uploaded(c, format, reg, d, data, size, cut);
      reg := uploaded;
      if error.Some? {
        return Err(error.value), shas;
      }
      if format.TarLayers? {
        var idx := LoadIndex();
        SaveIndex(idx[d := EntryFor(c, d)]);
      }
      IndexedExactly(c, format, World(uploaded, old(pending)), d);
      hide PerformAll, SaveRequests;
      ghost var w := Now();
      var known := CheckPending(listable);
      if known {
        shas := PromoteStaged(readable);
        PromotedKeepsIndex(c, format, w.(pending := true), shas, false, readable);
      }
      r := Ok(true);
    }

    /** Deletes every tag; blobs stay behind. failed says for each tag whether its deletion fails. */
    method DeleteRepo(failed: Tag -> bool) returns (ok: bool)
      modifies this`reg, this`pending
      ensures pending == old(pending) && reg.blobs == old(reg).blobs
      ensures forall tag :: tag in TagsOf(reg) <==> tag in TagsOf(old(reg)) && failed(tag)
      ensures forall sha :: sha in reg.commits <==> sha in old(reg).commits && failed(CommitTag(sha))
      ensures forall r :: r in reg.refs <==> r in old(reg).refs && failed(RefTag(r))
      ensures forall sha :: sha in reg.staged <==> sha in old(reg).staged && failed(StagedTag(sha))
      ensures reg.index == if failed(IndexTag) then old(reg).index else None
      ensures ok == (TagsOf(old(reg)) != {} && forall tag :: tag in TagsOf(old(reg)) ==> !failed(tag))
    {
      hide TagsOf, Untag, Perform;
      var tags := TagsOf(reg);
      if tags == {} {
        TagsMean(reg);
        return false;
      }
      ok := true;
      var todo := tags;
      while todo != {}
        invariant todo <= tags && pending == old(pending) && reg.blobs == old(reg).blobs
        invariant forall tag :: tag in TagsOf(reg) <==> tag in tags && (tag in todo || failed(tag))
        invariant ok == forall tag :: tag in tags && tag !in todo ==> !failed(tag)
        invariant reg.index.Some? ==> reg.index == old(reg).index
        decreases |todo|
      {
        var tag :| tag in todo;
        if failed(tag) {
          ok := false;
        } else {
          UntagRemoves(reg, tag);
          UntagKeepsIndex(reg, tag);
          PerformDelete(Now(), tag);
          Do(DeleteTag(tag));
        }
        todo := todo - {tag};
      }
      TagsMean(reg);
      TagsMean(old(reg));
    }

    /** Promoted commits first, staged commits second. */
    method GetManifest(sha: Sha) returns (m: Option<Manifest>)
      ensures m == FoundManifest(reg, sha)
    {
      if sha in reg.commits {
        return Some(reg.commits[sha].manifest);
      }
      if sha in reg.staged {
        return Some(reg.staged[sha].manifest);
      }
      return None;
    }

    /** A commit id resolves to itself if its manifest is found; a ref to its tag's commit. */
    method ResolveRef(ref: string) returns (sha: Option<Sha>)
      ensures sha == ResolvedRef(reg, ref)
    {
      if IsCommitSHA(ref) {
        var m := GetManifest(ref);
        return if m.Some? then Some(ref) else None;
      }
      if ref in reg.refs {
        return Some(reg.refs[ref].manifest.sha);
      }
      return None;
    }
  }

  function FoundManifest(reg: Registry, sha: Sha): Option<Manifest> {
    if sha in reg.commits then Some(reg.commits[sha].manifest)
    else if sha in reg.staged then Some(reg.staged[sha].manifest)
    else None
  }

  function ResolvedRef(reg: Registry, ref: string): Option<Sha> {
    if IsCommitSHA(ref) then if FoundManifest(reg, ref).Some? then Some(ref) else None
    else if ref in reg.refs then Some(reg.refs[ref].manifest.sha)
    else None
  }

  predicate AlreadyHeld(format: Format, reg: Registry, d: Digest) {
    format.TarLayers? && d in IndexOf(reg)
  }

  /** A commit is found if it is published or staged, the published one first. */
  lemma FoundExactlyWhen(reg: Registry, sha: Sha, m: Manifest)
    ensures FoundManifest(reg, sha) == Some(m) <==>
            (sha in reg.commits && reg.commits[sha].manifest == m) ||
            (sha !in reg.commits && sha in reg.staged && reg.staged[sha].manifest == m)
  {
  }

  /** What a revision resolves to: the id of a commit that is published or staged, to itself; any
      other name, to the commit its ref tag describes; nothing else resolves. */
  lemma ResolvesExactlyWhen(reg: Registry, ref: string, sha: Sha)
    ensures ResolvedRef(reg, ref) == Some(sha) <==>
            if IsCommitSHA(ref) then sha == ref && (ref in reg.commits || ref in reg.staged)
            else ref in reg.refs && reg.refs[ref].manifest.sha == sha
  {
    hide IsCommitSHA;
  }

  /** The index update that follows a verified upload in tar-layers format. */
  function Indexed(c: Codec, format: Format, w: World, d: Digest): World {
    match format
    case ModelPack => w
    case TarLayers => PerformAll(w, SaveRequests(c, IndexOf(w.reg)[d := EntryFor(c, d)]))
  }

  lemma IndexedExactly(c: Codec, format: Format, w: World, d: Digest)
    ensures var w' := Indexed(c, format, w, d);
            w'.pending == w.pending && w.reg.blobs <= w'.reg.blobs && w'.reg == w.reg.(blobs := w'.reg.blobs, index := w'.reg.index) &&
            (format.ModelPack? ==> w' == w) &&
            (format.TarLayers? ==>
               IndexOf(w'.reg) == IndexOf(w.reg)[d := EntryFor(c, d)] && Sha256(c.index(IndexOf(w'.reg))) in w'.reg.blobs)
  {
    PerformThree(w, SaveRequests(c, IndexOf(w.reg)[d := EntryFor(c, d)]));
    hide PerformAll, EntryFor;
  }

  lemma PerformDelete(w: World, tag: Tag)
    ensures Perform(w, DeleteTag(tag)) == w.(reg := Untag(w.reg, tag))
  {
  }

  lemma UntagRemoves(reg: Registry, tag: Tag)
    ensures TagsOf(Untag(reg, tag)) == TagsOf(reg) - {tag} && Untag(reg, tag).blobs == reg.blobs
  {
  }
}
