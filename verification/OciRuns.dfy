/** Any number of PutManifest, PutBlob and DeleteRepo calls interleaved on one OCI repository,
    registry call by registry call (internal/backend/ocibackend/write.go, ocibackend.go). */
module OciRuns {
  import opened Common
  import opened StringOrder
  import opened OciStaging

  datatype Call =
    | PutManifestCall(manifest: Manifest, refs: seq<string>)
    | PutBlobCall(digest: Digest, data: Bytes, size: int)
    | DeleteRepoCall

  /** Where a call stands outside the repo lock. */
  datatype Pc = Begin | Uploading | Verified | Promoting | Inside | Returned(ok: bool)

  datatype Thread = Thread(call: Call, pc: Pc)

  /** The next decision of the lock holder, once its requests are done; each reads the registry
      as it then is. */
  datatype Decision =
    | Done
    | PutOrStage(manifest: Manifest, refs: seq<string>)
    | UpdateIndex(digest: Digest)
    | CheckPending
    | ListStaged
    | PromoteEach(shas: seq<Sha>, left: bool)
    | DeleteAll

  /** What the lock holder still has to do. */
  datatype Section = Section(owner: nat, call: Call, todo: seq<Request>, next: Decision)

  /** The rest is history: the refs asked for by the stagings since a staged tag appeared
      (recorded), those asked for since the last staging that could not read it (kept), the tags
      that saw such a staging (missed), and whether a DeleteRepo call has stopped half-way (torn). */
  datatype State = State(w: World, lock: Option<Section>, threads: map<nat, Thread>, recorded: map<Sha, set<string>>,
                         kept: map<Sha, set<string>>, missed: set<Sha>, torn: bool)

  function At(s: State, t: nat, pc: Pc): State
    requires t in s.threads
  {
    s.(threads := s.threads[t := s.threads[t].(pc := pc)])
  }

  // ---------------------------------------------------------------- steps outside the lock

  ghost predicate StartStep(s: State, s': State) {
    exists t: nat, call :: t !in s.threads && s' == Started(s, t, call)
  }

  function Started(s: State, t: nat, call: Call): State {
    s.(threads := s.threads[t := Thread(call, Begin)])
  }

  /** PutBlob's first phase; in tar-layers format it takes the lock, reads the index and lets go. */
  ghost predicate CheckStep(format: Format, s: State, s': State) {
    exists t :: t in s.threads && s.threads[t].pc.Begin? && s.threads[t].call.PutBlobCall? &&
                (format.TarLayers? ==> s.lock.None?) && s' == Checked(format, s, t)
  }

  function Checked(format: Format, s: State, t: nat): State
    requires t in s.threads && s.threads[t].call.PutBlobCall?
  {
    var d := s.threads[t].call.digest;
    At(s, t, if d.Sha1? then Returned(false) else if AlreadyHeld(format, s.w.reg, d) then Returned(true) else Uploading)
  }

  /** The upload and the digest check, unlocked. */
  ghost predicate UploadStep(c: Codec, format: Format, s: State, s': State) {
    exists t, cut :: t in s.threads && s.threads[t].pc.Uploading? && s.threads[t].call.PutBlobCall? &&
                     s' == AfterUpload(c, format, s, t, cut)
  }

  function AfterUpload(c: Codec, format: Format, s: State, t: nat, cut: bool): State
    requires t in s.threads && s.threads[t].call.PutBlobCall?
  {
    var call := s.threads[t].call;
    var (reg, error) := Uploaded(c, format, s.w.reg, call.digest, call.data, call.size, cut);
    At(s, t, if error.None? then Verified else Returned(false)).(w := s.w.(reg := reg))
  }

  /** In modelpack format PutBlob looks for promotion work before it takes the lock. */
  ghost predicate PendingStep(format: Format, s: State, s': State) {
    exists t :: t in s.threads && s.threads[t].pc.Verified? && format.ModelPack? && s' == AfterPending(s, t)
  }

  /** A listing that fails is taken for an empty one. */
  ghost predicate UnlistedStep(format: Format, s: State, s': State) {
    exists t :: t in s.threads && s.threads[t].pc.Verified? && format.ModelPack? && !s.w.pending && s' == At(s, t, Returned(true))
  }

  function AfterPending(s: State, t: nat): State
    requires t in s.threads
  {
    if HasPending(s.w) then At(s, t, Promoting).(w := s.w.(pending := true)) else At(s, t, Returned(true))
  }

  /** A process that stops fails all its calls, inside the lock and outside, so it counts as a
      failure wherever each of them stood; the next process starts without the pending flag. */
  ghost predicate RestartStep(s: State, s': State) {
    s.lock.None? && (forall t :: t in s.threads ==> s.threads[t].pc.Returned?) && s' == s.(w := s.w.(pending := false))
  }

  // ---------------------------------------------------------------- steps under the lock

  /** What a call does first when it has the lock. */
  function FirstDecision(format: Format, th: Thread): Option<Decision> {
    match (th.call, th.pc)
    case (PutManifestCall(m, refs), Begin) => Some(PutOrStage(m, refs))
    case (DeleteRepoCall, Begin) => Some(DeleteAll)
    case (PutBlobCall(d, _, _), Verified) => if format.TarLayers? then Some(UpdateIndex(d)) else None
    case (PutBlobCall(_, _, _), Promoting) => Some(ListStaged)
    case _ => None
  }

  ghost predicate LockStep(format: Format, s: State, s': State) {
    exists t :: t in s.threads && s.lock.None? && FirstDecision(format, s.threads[t]).Some? && s' == Entered(format, s, t)
  }

  function Entered(format: Format, s: State, t: nat): State
    requires t in s.threads && FirstDecision(format, s.threads[t]).Some?
  {
    At(s, t, Inside).(lock := Some(Section(t, s.threads[t].call, [], FirstDecision(format, s.threads[t]).value)))
  }

  /** A decision turns into requests and a next decision; listings come in any order. */
  ghost predicate Decides(c: Codec, format: Format, w: World, d: Decision, todo: seq<Request>, next: Decision) {
    match d
    case Done => false
    case PutOrStage(m, refs) => todo == PutOrStageRequests(c, format, w.reg, m, refs, true) && next == Done
    case UpdateIndex(digest) =>
      todo == SaveRequests(c, IndexOf(w.reg)[digest := EntryFor(c, digest)]) && next == CheckPending
    case CheckPending =>
      if HasPending(w) then todo == [SetPending(true)] && next == ListStaged else todo == [] && next == Done
    case ListStaged => todo == [] && next.PromoteEach? && !next.left && Enumerates(next.shas, w.reg.staged.Keys)
    case PromoteEach(shas, left) =>
      if shas == [] then todo == (if left then [] else [SetPending(false)]) && next == Done
      else todo == PromoteRequests(c, format, w.reg, shas[0], true) &&
           next == PromoteEach(shas[1..], left || LeavesStaged(format, w.reg, shas[0], true))
    case DeleteAll => next == Done && exists tags :: Enumerates(tags, TagsOf(w.reg)) && todo == DeleteRequests(tags)
  }

  ghost predicate DecideStep(c: Codec, format: Format, s: State, s': State) {
    s.lock.Some? && s.lock.value.todo == [] &&
    exists todo, next :: Decides(c, format, s.w, s.lock.value.next, todo, next) && s' == Decided(s, todo, next)
  }

  function Decided(s: State, todo: seq<Request>, next: Decision): State
    requires s.lock.Some?
  {
    s.(lock := Some(s.lock.value.(todo := todo, next := next)))
  }

  ghost predicate PerformStep(s: State, s': State) {
    s.lock.Some? && s.lock.value.todo != [] && s' == Performed(s)
  }

  function Performed(s: State): State
    requires s.lock.Some? && s.lock.value.todo != []
  {
    var q := s.lock.value.todo[0];
    Shorter(s).(w := Perform(s.w, q), recorded := Record(s.recorded, s.w.reg, q), kept := Keep(s.kept, s.w.reg, q),
                missed := Miss(s.missed, s.w.reg, q))
  }

  function Shorter(s: State): State
    requires s.lock.Some? && s.lock.value.todo != []
  {
    s.(lock := Some(s.lock.value.(todo := s.lock.value.todo[1..])))
  }

  /** A staging adds to what its tag has recorded; without the tag the record starts anew. */
  function Record(recorded: map<Sha, set<string>>, reg: Registry, q: Request): map<Sha, set<string>> {
    match q
    case PutStaged(doc, given, _) => recorded[doc.manifest.sha := RecordedFor(recorded, reg, doc.manifest.sha) + Names(given)]
    case _ => recorded
  }

  /** A staging that cannot read its tag keeps only its own refs. */
  function Keep(kept: map<Sha, set<string>>, reg: Registry, q: Request): map<Sha, set<string>> {
    match q
    case PutStaged(doc, given, read) =>
      kept[doc.manifest.sha := (if read then RecordedFor(kept, reg, doc.manifest.sha) else {}) + Names(given)]
    case _ => kept
  }

  function Miss(missed: set<Sha>, reg: Registry, q: Request): set<Sha> {
    if !q.PutStaged? then missed
    else if q.doc.manifest.sha !in reg.staged then missed - {q.doc.manifest.sha}
    else if q.read then missed
    else missed + {q.doc.manifest.sha}
  }

  function RecordedFor(recorded: map<Sha, set<string>>, reg: Registry, sha: Sha): set<string> {
    if sha in reg.staged && sha in recorded then recorded[sha] else {}
  }

  ghost predicate UnlockStep(s: State, s': State) {
    s.lock.Some? && s.lock.value.todo == [] && s.lock.value.next.Done? && s.lock.value.owner in s.threads &&
    s' == At(s, s.lock.value.owner, Returned(true)).(lock := None)
  }

  // ---------------------------------------------------------------- failures

  /** Which failures a run may see: registry failures of a PutBlob between its index update and
      the end of its promotion, staged tags a staging cannot read, and failures elsewhere. */
  datatype Faults = Faults(promotion: bool, unread: bool, elsewhere: bool)

  const NO_FAULTS := Faults(false, false, false)

  /** The index is updated and the promotion that must follow is not over. */
  predicate InPromotion(x: Section) {
    (x.next.CheckPending? || x.next.ListStaged? || x.next.PromoteEach?) && forall q :: q in x.todo ==> !q.PutIndex?
  }

  predicate MayFail(f: Faults, x: Section) { if InPromotion(x) then f.promotion else f.elsewhere }

  /** A registry call of the lock holder fails, possibly after taking effect, or its process stops. */
  ghost predicate FailInsideStep(f: Faults, s: State, s': State) {
    s.lock.Some? && s.lock.value.owner in s.threads && MayFail(f, s.lock.value) && s' == FailedInside(s)
  }

  function FailedInside(s: State): State
    requires s.lock.Some? && s.lock.value.owner in s.threads
  {
    At(s, s.lock.value.owner, Returned(false)).(lock := None, torn := s.torn || s.lock.value.call.DeleteRepoCall?)
  }

  /** Dropping a staged tag is best effort, and DeleteRepo goes on past a tag it cannot delete. */
  ghost predicate SkipStep(f: Faults, s: State, s': State) {
    s.lock.Some? && s.lock.value.todo != [] && (s.lock.value.todo[0].DropStaged? || s.lock.value.todo[0].DeleteTag?) &&
    MayFail(f, s.lock.value) && s' == Shorter(s).(torn := s.torn || s.lock.value.todo[0].DeleteTag?)
  }

  /** Reads whose failure is swallowed: a staging goes on without the recorded refs, a look for
      pending work finds none, and a promotion passes over the staged tag. */
  ghost predicate Swallows(c: Codec, format: Format, f: Faults, w: World, d: Decision, todo: seq<Request>, next: Decision) {
    match d
    case PutOrStage(m, refs) => f.unread && todo == PutOrStageRequests(c, format, w.reg, m, refs, false) && next == Done
    case CheckPending => f.promotion && !w.pending && todo == [] && next == Done
    case PromoteEach(shas, left) => f.promotion && shas != [] && todo == [] && next == PromoteEach(shas[1..], left)
    case _ => false
  }

  ghost predicate SwallowStep(c: Codec, format: Format, f: Faults, s: State, s': State) {
    s.lock.Some? && s.lock.value.todo == [] &&
    exists todo, next :: Swallows(c, format, f, s.w, s.lock.value.next, todo, next) && s' == Decided(s, todo, next)
  }

  ghost predicate FailOutsideStep(s: State, s': State) {
    exists t :: t in s.threads && !s.threads[t].pc.Inside? && !s.threads[t].pc.Returned? && s' == At(s, t, Returned(false))
  }

  // ---------------------------------------------------------------- runs

  ghost predicate OutsideStep(c: Codec, format: Format, s: State, s': State) {
    StartStep(s, s') || CheckStep(format, s, s') || UploadStep(c, format, s, s') || PendingStep(format, s, s') ||
    RestartStep(s, s')
  }

  ghost predicate FaultOutsideStep(format: Format, s: State, s': State) {
    FailOutsideStep(s, s') || UnlistedStep(format, s, s')
  }

  ghost predicate CleanNext(c: Codec, format: Format, s: State, s': State) {
    OutsideStep(c, format, s, s') || LockStep(format, s, s') || DecideStep(c, format, s, s') || PerformStep(s, s') ||
    UnlockStep(s, s')
  }

  ghost predicate Next(c: Codec, format: Format, f: Faults, s: State, s': State) {
    CleanNext(c, format, s, s') || FailInsideStep(f, s, s') || SkipStep(f, s, s') || SwallowStep(c, format, f, s, s') ||
    (f.elsewhere && FaultOutsideStep(format, s, s'))
  }

  const EMPTY: State :=
    State(World(Registry(map[], map[], map[], None, {}), false), None, map[], map[], map[], {}, false)

  /** Runs in which registry calls fail only as f allows. */
  ghost predicate Run(c: Codec, format: Format, f: Faults, trace: seq<State>) {
    && trace != [] && trace[0] == EMPTY
    && forall i :: 0 <= i < |trace| - 1 ==> Next(c, format, f, trace[i], trace[i + 1])
  }

  /** A step outside the lock: blobs may be added and the pending flag may be set, and the
      lock, the tags and the history stay. */
  ghost predicate Quiet(s: State, s': State) {
    && s'.lock == s.lock && s'.recorded == s.recorded && s'.kept == s.kept && s'.missed == s.missed && s'.torn == s.torn
    && s'.w.reg == s.w.reg.(blobs := s'.w.reg.blobs) && s.w.reg.blobs <= s'.w.reg.blobs
  }

  lemma UploadOnlyAdds(c: Codec, format: Format, reg: Registry, d: Digest, data: Bytes, size: int, cut: bool)
    ensures var reg' := Uploaded(c, format, reg, d, data, size, cut).0;
            reg' == reg.(blobs := reg'.blobs) && reg.blobs <= reg'.blobs
  {
    hide TarLayer;
  }

  lemma UploadIsQuiet(c: Codec, format: Format, s: State, s': State)
    requires UploadStep(c, format, s, s')
    ensures Quiet(s, s')
  {
    hide Uploaded;
    var t, cut :| t in s.threads && s.threads[t].pc.Uploading? && s.threads[t].call.PutBlobCall? &&
                  s' == AfterUpload(c, format, s, t, cut);
    var call := s.threads[t].call;
    UploadOnlyAdds(c, format, s.w.reg, call.digest, call.data, call.size, cut);
  }

  lemma OutsideIsQuiet(c: Codec, format: Format, s: State, s': State)
    requires OutsideStep(c, format, s, s') || FaultOutsideStep(format, s, s')
    ensures Quiet(s, s')
  {
    hide HasPending, AlreadyHeld, UploadStep;
    if UploadStep(c, format, s, s') {
      UploadIsQuiet(c, format, s, s');
    }
  }

  // ---------------------------------------------------------------- soundness of what is stored

  /** Every entry is the one its content determines, and its layer is in the registry. */
  ghost predicate IndexOk(c: Codec, blobs: set<Digest>, index: Index) {
    forall d :: d in index ==> d.Sha256? && index[d] == EntryFor(c, d) && index[d].layer in blobs
  }

  /** One layer per file, in order, each a window of a stored blob holding the file's content. */
  ghost predicate ImageOk(blobs: set<Digest>, image: Image) {
    |image.layers| == |image.manifest.files| &&
    forall i :: 0 <= i < |image.layers| ==> LayerOk(blobs, image.manifest.files[i], image.layers[i])
  }

  predicate LayerOk(blobs: set<Digest>, f: File, layer: Layer) {
    layer.path == f.path && f.digest == Some(layer.fileDigest) && layer.fileDigest.Sha256? && layer.entry.layer in blobs &&
    Holds(layer.entry, layer.fileDigest)
  }

  ghost predicate RegistryOk(c: Codec, reg: Registry) {
    IndexOk(c, reg.blobs, IndexOf(reg)) && TagsOk(reg)
  }

  ghost predicate TagsOk(reg: Registry) {
    && (forall sha :: sha in reg.commits ==> reg.commits[sha].manifest.sha == sha && ImageOk(reg.blobs, reg.commits[sha]))
    && (forall r :: r in reg.refs ==> ImageOk(reg.blobs, reg.refs[r]))
    && (forall sha :: sha in reg.staged ==> reg.staged[sha].manifest.sha == sha)
  }

  /** A request that keeps the registry sound. */
  ghost predicate Prepared(c: Codec, reg: Registry, q: Request) {
    match q
    case PutCommit(image) => ImageOk(reg.blobs, image)
    case PutRef(_, image) => ImageOk(reg.blobs, image)
    case PutIndex(index) => IndexOk(c, reg.blobs, index) && IndexOf(reg).Keys <= index.Keys
    case _ => true
  }

  ghost predicate SectionOk(c: Codec, reg: Registry, x: Section) {
    && (forall k :: 0 <= k < |x.todo| ==> Prepared(c, reg, x.todo[k]))
    && (forall k :: 0 <= k < |x.todo| && x.todo[k].PutIndex? ==> k == |x.todo| - 1)
    && (x.next.UpdateIndex? ==> UploadedLayer(c, reg, x.next.digest))
  }

  predicate UploadedLayer(c: Codec, reg: Registry, d: Digest) {
    d.Sha256? && EntryFor(c, d).layer in reg.blobs
  }

  ghost predicate Sound(c: Codec, format: Format, s: State) {
    && RegistryOk(c, s.w.reg)
    && (s.lock.Some? ==> SectionOk(c, s.w.reg, s.lock.value))
    && (forall t :: t in s.threads && s.threads[t].pc.Verified? && s.threads[t].call.PutBlobCall? && format.TarLayers? ==>
          UploadedLayer(c, s.w.reg, s.threads[t].call.digest))
  }

  lemma ImageStays(blobs: set<Digest>, more: set<Digest>, image: Image)
    requires ImageOk(blobs, image) && blobs <= more
    ensures ImageOk(more, image)
  {
    hide Holds;
  }

  /** More blobs take nothing away. */
  lemma GrowKeepsRegistryOk(c: Codec, reg: Registry, more: set<Digest>)
    requires RegistryOk(c, reg) && reg.blobs <= more
    ensures RegistryOk(c, reg.(blobs := more))
  {
    hide ImageOk, EntryFor;
    forall sha | sha in reg.commits ensures ImageOk(more, reg.commits[sha]) {
      ImageStays(reg.blobs, more, reg.commits[sha]);
    }
    forall r | r in reg.refs ensures ImageOk(more, reg.refs[r]) {
      ImageStays(reg.blobs, more, reg.refs[r]);
    }
  }

  lemma GrowKeepsPrepared(c: Codec, reg: Registry, more: set<Digest>, q: Request)
    requires Prepared(c, reg, q) && reg.blobs <= more
    ensures Prepared(c, reg.(blobs := more), q)
  {
    hide ImageOk, EntryFor;
    if q.PutCommit? || q.PutRef? {
      ImageStays(reg.blobs, more, q.image);
    }
  }

  lemma GrowKeepsSectionOk(c: Codec, reg: Registry, more: set<Digest>, x: Section)
    requires SectionOk(c, reg, x) && reg.blobs <= more
    ensures SectionOk(c, reg.(blobs := more), x)
  {
    hide Prepared, EntryFor;
    forall k | 0 <= k < |x.todo| ensures Prepared(c, reg.(blobs := more), x.todo[k]) {
      GrowKeepsPrepared(c, reg, more, x.todo[k]);
    }
  }

  /** A prepared request keeps the registry sound. */
  lemma PerformKeepsRegistryOk(c: Codec, w: World, q: Request)
    requires RegistryOk(c, w.reg) && Prepared(c, w.reg, q)
    ensures RegistryOk(c, Perform(w, q).reg)
  {
    if q.PushBlob? {
      GrowKeepsRegistryOk(c, w.reg, w.reg.blobs + {q.digest});
    } else {
      PerformKeepsTagsOk(c, w, q);
      hide ImageOk, EntryFor, TagsOk;
    }
  }

  lemma PerformKeepsTagsOk(c: Codec, w: World, q: Request)
    requires TagsOk(w.reg) && Prepared(c, w.reg, q) && !q.PushBlob?
    ensures TagsOk(Perform(w, q).reg)
  {
    hide ImageOk, IndexOk;
  }

  /** ... and the requests after it stay prepared. */
  lemma PerformKeepsPrepared(c: Codec, w: World, q: Request, later: Request)
    requires Prepared(c, w.reg, later) && (later.PutIndex? ==> !q.PutIndex?)
    ensures Prepared(c, Perform(w, q).reg, later)
  {
    if q.PushBlob? {
      GrowKeepsPrepared(c, w.reg, w.reg.blobs + {q.digest}, later);
    }
    hide ImageOk, IndexOk;
  }

  lemma PerformKeepsSectionOk(c: Codec, w: World, x: Section)
    requires SectionOk(c, w.reg, x) && x.todo != []
    ensures SectionOk(c, Perform(w, x.todo[0]).reg, x.(todo := x.todo[1..]))
  {
    hide Prepared, EntryFor;
    var rest := x.todo[1..];
    forall k | 0 <= k < |rest| ensures Prepared(c, Perform(w, x.todo[0]).reg, rest[k]) {
      assert rest[k] == x.todo[k + 1];
      PerformKeepsPrepared(c, w, x.todo[0], x.todo[k + 1]);
    }
  }

  /** A complete manifest's image is sound. */
  lemma CompleteImageOk(c: Codec, format: Format, reg: Registry, m: Manifest)
    requires IndexOk(c, reg.blobs, IndexOf(reg)) && Missing(format, reg, m.files) == []
    ensures ImageOk(reg.blobs, Image(m, LayersOf(format, reg, m.files)))
  {
    NothingMissing(format, reg, m.files);
    LayersMatch(format, reg, m.files);
    var image := Image(m, LayersOf(format, reg, m.files));
    forall i | 0 <= i < |image.layers| ensures LayerOk(reg.blobs, m.files[i], image.layers[i]) {
      LocatedOk(c, format, reg, m.files[i]);
      hide LayersOf, Missing, Holds, Locate;
    }
    hide LayersOf, Missing, LayerOk;
  }

  lemma LocatedOk(c: Codec, format: Format, reg: Registry, f: File)
    requires IndexOk(c, reg.blobs, IndexOf(reg)) && Locate(format, reg, f).Some?
    ensures f.digest.Some? && f.digest.value.Sha256? && Locate(format, reg, f).value.layer in reg.blobs &&
            Holds(Locate(format, reg, f).value, f.digest.value)
  {
    EntryHolds(c, f.digest.value);
    hide EntryFor;
  }

  // ---------------------------------------------------------------- decisions prepare sound requests

  ghost predicate AllPrepared(c: Codec, reg: Registry, todo: seq<Request>) {
    forall k :: 0 <= k < |todo| ==> Prepared(c, reg, todo[k]) && !todo[k].PutIndex?
  }

  lemma PublishPrepared(c: Codec, format: Format, reg: Registry, m: Manifest, refs: seq<string>)
    requires IndexOk(c, reg.blobs, IndexOf(reg)) && Missing(format, reg, m.files) == []
    ensures AllPrepared(c, reg, PublishRequests(c, format, m, LayersOf(format, reg, m.files), refs))
  {
    CompleteImageOk(c, format, reg, m);
    hide ImageOk, IndexOk, LayersOf, Missing;
    var image := Image(m, LayersOf(format, reg, m.files));
    var todo := PublishRequests(c, format, m, image.layers, refs);
    forall q | q in todo ensures Prepared(c, reg, q) && !q.PutIndex? {
    }
  }

  lemma PutOrStagePrepared(c: Codec, format: Format, reg: Registry, m: Manifest, refs: seq<string>, readable: bool)
    requires IndexOk(c, reg.blobs, IndexOf(reg))
    ensures AllPrepared(c, reg, PutOrStageRequests(c, format, reg, m, refs, readable))
  {
    if Missing(format, reg, m.files) == [] {
      hide PublishRequests, LayersOf, AllPrepared;
      PublishPrepared(c, format, reg, m, refs);
    } else {
      hide IndexOk, Missing, StagedRefs, ImageOk;
    }
  }

  lemma PromotePrepared(c: Codec, format: Format, reg: Registry, sha: Sha)
    requires IndexOk(c, reg.blobs, IndexOf(reg))
    ensures AllPrepared(c, reg, PromoteRequests(c, format, reg, sha, true))
  {
    if sha in reg.staged && Missing(format, reg, reg.staged[sha].manifest.files) == [] {
      hide PublishRequests, LayersOf, AllPrepared, Sorted, Split, Names;
      PublishPrepared(c, format, reg, reg.staged[sha].manifest, Sorted(Names(Split(reg.staged[sha].refs))));
    }
  }

  lemma DecidePrepares(c: Codec, format: Format, w: World, x: Section, todo: seq<Request>, next: Decision)
    requires RegistryOk(c, w.reg) && SectionOk(c, w.reg, x) && Decides(c, format, w, x.next, todo, next)
    ensures SectionOk(c, w.reg, x.(todo := todo, next := next))
  {
    hide PutOrStageRequests, PromoteRequests, IndexOk, ImageOk, EntryFor, Enumerates, TagsOk, TagsOf, SaveRequests;
    match x.next {
      case PutOrStage(m, refs) => PutOrStagePrepared(c, format, w.reg, m, refs, true);
      case UpdateIndex(d) => SavePrepared(c, w.reg, d);
      case PromoteEach(shas, left) =>
        if shas != [] { PromotePrepared(c, format, w.reg, shas[0]); }
      case _ =>
    }
  }

  lemma SwallowPrepares(c: Codec, format: Format, f: Faults, w: World, x: Section, todo: seq<Request>, next: Decision)
    requires RegistryOk(c, w.reg) && Swallows(c, format, f, w, x.next, todo, next)
    ensures SectionOk(c, w.reg, x.(todo := todo, next := next))
  {
    hide PutOrStageRequests, IndexOk, ImageOk, EntryFor, TagsOk;
    if x.next.PutOrStage? {
      PutOrStagePrepared(c, format, w.reg, x.next.manifest, x.next.refs, false);
    }
  }

  lemma SavePrepared(c: Codec, reg: Registry, d: Digest)
    requires IndexOk(c, reg.blobs, IndexOf(reg)) && UploadedLayer(c, reg, d)
    ensures var todo := SaveRequests(c, IndexOf(reg)[d := EntryFor(c, d)]);
            forall k :: 0 <= k < |todo| ==> Prepared(c, reg, todo[k]) && (todo[k].PutIndex? ==> k == |todo| - 1)
  {
    hide EntryFor;
  }

  // ---------------------------------------------------------------- soundness over runs

  lemma QuietKeepsSound(c: Codec, format: Format, s: State, s': State)
    requires Sound(c, format, s) && Quiet(s, s')
    requires forall t :: t in s'.threads && s'.threads[t].pc.Verified? && s'.threads[t].call.PutBlobCall? && format.TarLayers? ==>
               UploadedLayer(c, s'.w.reg, s'.threads[t].call.digest)
    ensures Sound(c, format, s')
  {
    hide RegistryOk, SectionOk, EntryFor;
    GrowKeepsRegistryOk(c, s.w.reg, s'.w.reg.blobs);
    if s.lock.Some? {
      GrowKeepsSectionOk(c, s.w.reg, s'.w.reg.blobs, s.lock.value);
    }
  }

  /** A thread that is past its digest check has its layer in the registry. */
  lemma OutsideKeepsUploaded(c: Codec, format: Format, s: State, s': State)
    requires Sound(c, format, s) && (OutsideStep(c, format, s, s') || FaultOutsideStep(format, s, s'))
    ensures forall t :: t in s'.threads && s'.threads[t].pc.Verified? && s'.threads[t].call.PutBlobCall? && format.TarLayers? ==>
              UploadedLayer(c, s'.w.reg, s'.threads[t].call.digest)
  {
    OutsideIsQuiet(c, format, s, s');
    hide RegistryOk, SectionOk, HasPending, AlreadyHeld, TarLayer, Quiet;
    assert s.w.reg.blobs <= s'.w.reg.blobs by { QuietGrows(s, s'); }
  }

  lemma QuietGrows(s: State, s': State)
    requires Quiet(s, s')
    ensures s.w.reg.blobs <= s'.w.reg.blobs
  {
  }

  lemma LockKeepsSound(c: Codec, format: Format, f: Faults, s: State, s': State)
    requires Sound(c, format, s)
    requires LockStep(format, s, s') || UnlockStep(s, s') || FailInsideStep(f, s, s')
    ensures Sound(c, format, s')
  {
    hide RegistryOk, EntryFor, Prepared, MayFail;
  }

  lemma DecisionKeepsSound(c: Codec, format: Format, f: Faults, s: State, s': State)
    requires Sound(c, format, s)
    requires DecideStep(c, format, s, s') || SwallowStep(c, format, f, s, s')
    ensures Sound(c, format, s')
  {
    hide RegistryOk, Decides, Swallows, EntryFor, Prepared, SectionOk;
    if DecideStep(c, format, s, s') {
      var todo, next :| Decides(c, format, s.w, s.lock.value.next, todo, next) && s' == Decided(s, todo, next);
      DecidePrepares(c, format, s.w, s.lock.value, todo, next);
    } else {
      var todo, next :| Swallows(c, format, f, s.w, s.lock.value.next, todo, next) && s' == Decided(s, todo, next);
      SwallowPrepares(c, format, f, s.w, s.lock.value, todo, next);
    }
  }

  lemma RequestKeepsSound(c: Codec, format: Format, f: Faults, s: State, s': State)
    requires Sound(c, format, s) && (PerformStep(s, s') || SkipStep(f, s, s'))
    ensures Sound(c, format, s')
  {
    var x := s.lock.value;
    var q := x.todo[0];
    hide RegistryOk, EntryFor, Prepared;
    if PerformStep(s, s') {
      assert Prepared(c, s.w.reg, q);
      PerformKeepsRegistryOk(c, s.w, q);
      PerformKeepsSectionOk(c, s.w, x);
      PerformGrows(s.w, q);
    }
    hide Perform;
  }

  lemma PerformGrows(w: World, q: Request)
    ensures w.reg.blobs <= Perform(w, q).reg.blobs
  {
  }

  lemma NextKeepsSound(c: Codec, format: Format, f: Faults, s: State, s': State)
    requires Sound(c, format, s) && Next(c, format, f, s, s')
    ensures Sound(c, format, s')
  {
    hide Sound, OutsideStep, LockStep, DecideStep, PerformStep, UnlockStep, FailInsideStep, SkipStep, SwallowStep, FaultOutsideStep;
    if OutsideStep(c, format, s, s') || FaultOutsideStep(format, s, s') {
      OutsideIsQuiet(c, format, s, s');
      OutsideKeepsUploaded(c, format, s, s');
      QuietKeepsSound(c, format, s, s');
    } else if PerformStep(s, s') || SkipStep(f, s, s') {
      RequestKeepsSound(c, format, f, s, s');
    } else if DecideStep(c, format, s, s') || SwallowStep(c, format, f, s, s') {
      DecisionKeepsSound(c, format, f, s, s');
    } else {
      LockKeepsSound(c, format, f, s, s');
    }
  }

  lemma {:induction false} RunIsSound(c: Codec, format: Format, f: Faults, trace: seq<State>, i: nat)
    requires Run(c, format, f, trace) && i < |trace|
    ensures Sound(c, format, trace[i])
  {
    hide Next;
    if i > 0 {
      hide Sound;
      RunIsSound(c, format, f, trace, i - 1);
      NextKeepsSound(c, format, f, trace[i - 1], trace[i]);
    }
  }
}
