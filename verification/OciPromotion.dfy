/** Promotion on an OCI repository over every run: no complete commit stays staged, promotion
    applies exactly the recorded refs, and stored contents stay found. */
module OciPromotion {
  import opened Common
  import opened StringOrder
  import opened OciStaging
  import opened OciRuns
  import opened OciProperties

  // ---------------------------------------------------------------- nothing complete stays staged

  predicate Incomplete(reg: Registry, files: seq<File>) {
    Missing(TarLayers, reg, files) != []
  }

  /** Every staged commit is incomplete, still to be looked at, or about to be dropped. */
  ghost predicate Covered(reg: Registry, todo: seq<Request>, shas: seq<Sha>) {
    forall sha :: sha in reg.staged ==>
      Incomplete(reg, reg.staged[sha].manifest.files) || sha in shas || DropStaged(sha) in todo
  }

  /** The requests neither complete a staged commit nor stage a complete one. */
  ghost predicate Harmless(reg: Registry, todo: seq<Request>) {
    forall q :: q in todo ==> !q.PutIndex? && (q.PutStaged? ==> Incomplete(reg, q.doc.manifest.files))
  }

  /** The index update itself: pushes, then the tag. */
  predicate SavesIndex(todo: seq<Request>) {
    forall k :: 0 <= k < |todo| ==> if k == |todo| - 1 then todo[k].PutIndex? else todo[k].PushBlob?
  }

  /** What the lock holder has still to do for the complete commits. From the index update until
      the staged tags are listed any staged commit may be complete; after that the complete ones
      are those listed; before and otherwise there is none. */
  ghost predicate Attended(reg: Registry, x: Section) {
    match x.next
    case PromoteEach(shas, _) => Covered(reg, x.todo, shas) && Harmless(reg, x.todo)
    case ListStaged => Harmless(reg, x.todo)
    case CheckPending => SavesIndex(x.todo) && (x.todo != [] ==> Covered(reg, [], []))
    case _ => Covered(reg, [], []) && Harmless(reg, x.todo)
  }

  ghost predicate NoneForgotten(s: State) {
    if s.lock.None? then Covered(s.w.reg, [], []) else Attended(s.w.reg, s.lock.value)
  }

  /** Whatever keeps or shrinks the index keeps an incomplete manifest incomplete. */
  lemma IncompleteStays(reg: Registry, reg': Registry, files: seq<File>)
    requires Incomplete(reg, files) && IndexOf(reg').Keys <= IndexOf(reg).Keys
    ensures Incomplete(reg', files)
  {
    NothingMissing(TarLayers, reg, files);
    NothingMissing(TarLayers, reg', files);
    hide Missing;
    var i :| 0 <= i < |files| && Locate(TarLayers, reg, files[i]).None?;
    assert Locate(TarLayers, reg', files[i]).None?;
  }

  lemma QuietKeepsNoneForgotten(s: State, s': State)
    requires NoneForgotten(s) && Quiet(s, s')
    ensures NoneForgotten(s')
  {
    hide Incomplete;
    var reg, reg' := s.w.reg, s'.w.reg;
    forall files | Incomplete(reg, files) ensures Incomplete(reg', files) {
      IncompleteStays(reg, reg', files);
    }
  }

  lemma DecideKeepsNoneForgotten(c: Codec, s: State, todo: seq<Request>, next: Decision)
    requires NoneForgotten(s) && TagsOk(s.w.reg) && s.lock.Some? && s.lock.value.todo == []
    requires Decides(c, TarLayers, s.w, s.lock.value.next, todo, next)
    ensures NoneForgotten(Decided(s, todo, next))
  {
    var reg, x := s.w.reg, s.lock.value;
    hide PutOrStageRequests, PromoteRequests, Incomplete, EntryFor, TagsOk, DeleteRequests;
    match x.next {
      case PutOrStage(m, refs) => PutOrStageIsHarmless(c, reg, m, refs, true);
      case PromoteEach(shas, left) =>
        if shas != [] { PromoteKeepsCovered(c, reg, shas); }
      case DeleteAll => DeletionIsHarmless(reg, todo);
      case _ =>
    }
  }

  lemma PutOrStageIsHarmless(c: Codec, reg: Registry, m: Manifest, refs: seq<string>, readable: bool)
    ensures Harmless(reg, PutOrStageRequests(c, TarLayers, reg, m, refs, readable))
  {
    hide PublishRequests, LayersOf, Incomplete, StagedRefs;
    if Missing(TarLayers, reg, m.files) == [] {
      PublishIsHarmless(c, reg, m, refs);
    } else {
      IsIncomplete(reg, m.files);
    }
  }

  lemma IsIncomplete(reg: Registry, files: seq<File>)
    requires Missing(TarLayers, reg, files) != []
    ensures Incomplete(reg, files)
  {
  }

  lemma DeletionIsHarmless(reg: Registry, todo: seq<Request>)
    requires exists tags: seq<Tag> :: Enumerates(tags, TagsOf(reg)) && todo == DeleteRequests(tags)
    ensures Harmless(reg, todo)
  {
    hide Incomplete, TagsOf, Enumerates;
  }

  lemma PublishIsHarmless(c: Codec, reg: Registry, m: Manifest, refs: seq<string>)
    ensures var todo := PublishRequests(c, TarLayers, m, LayersOf(TarLayers, reg, m.files), refs);
            Harmless(reg, todo) && DropStaged(m.sha) in todo
  {
    hide Incomplete, LayersOf;
    var layers := LayersOf(TarLayers, reg, m.files);
    var todo := PublishRequests(c, TarLayers, m, layers, refs);
    assert todo[|todo| - 1] == DropStaged(m.sha);
    forall q | q in todo ensures !q.PutIndex? && !q.PutStaged? {
    }
  }

  lemma PromoteKeepsCovered(c: Codec, reg: Registry, shas: seq<Sha>)
    requires shas != [] && Covered(reg, [], shas) && TagsOk(reg)
    ensures Covered(reg, PromoteRequests(c, TarLayers, reg, shas[0], true), shas[1..])
    ensures Harmless(reg, PromoteRequests(c, TarLayers, reg, shas[0], true))
  {
    var sha := shas[0];
    hide PublishRequests, LayersOf, Sorted, Split, Names, ImageOk, Missing;
    if sha in reg.staged && Missing(TarLayers, reg, reg.staged[sha].manifest.files) == [] {
      PublishIsHarmless(c, reg, reg.staged[sha].manifest, Sorted(Names(Split(reg.staged[sha].refs))));
    }
    hide Incomplete;
    assert sha in reg.staged ==> Incomplete(reg, reg.staged[sha].manifest.files) || DropStaged(sha) in PromoteRequests(c, TarLayers, reg, sha, true) by {
      if sha in reg.staged && Missing(TarLayers, reg, reg.staged[sha].manifest.files) != [] {
        IsIncomplete(reg, reg.staged[sha].manifest.files);
      }
    }
    assert shas == [sha] + shas[1..];
  }

  lemma PerformKeepsNoneForgotten(s: State)
    requires NoneForgotten(s) && s.lock.Some? && s.lock.value.todo != []
    ensures NoneForgotten(Performed(s))
  {
    var x := s.lock.value;
    hide Covered, Harmless;
    match x.next {
      case PromoteEach(shas, _) => PerformKeepsCovered(s.w, x.todo, shas);
      case CheckPending => SaveKeepsCovered(s.w, x.todo);
      case ListStaged => PerformKeepsHarmless(s.w, x.todo);
      case _ =>
        PerformKeepsHarmless(s.w, x.todo);
        PerformKeepsNone(s.w, x.todo);
    }
  }

  /** Until the index itself is tagged, pushing its blobs completes nothing. */
  lemma SaveKeepsCovered(w: World, todo: seq<Request>)
    requires todo != [] && SavesIndex(todo) && Covered(w.reg, [], [])
    ensures SavesIndex(todo[1..]) && (todo[1..] != [] ==> Covered(Perform(w, todo[0]).reg, [], []))
  {
    var q, reg, reg' := todo[0], w.reg, Perform(w, todo[0]).reg;
    if q.PushBlob? {
      hide Incomplete;
      assert IndexOf(reg') == IndexOf(reg);
      forall files | Incomplete(reg, files) ensures Incomplete(reg', files) {
        IncompleteStays(reg, reg', files);
      }
    }
  }

  lemma PerformKeepsHarmless(w: World, todo: seq<Request>)
    requires todo != [] && Harmless(w.reg, todo)
    ensures Harmless(Perform(w, todo[0]).reg, todo[1..])
  {
    var q, reg, reg' := todo[0], w.reg, Perform(w, todo[0]).reg;
    assert q in todo && IndexOf(reg').Keys <= IndexOf(reg).Keys;
    hide Incomplete;
    forall files | Incomplete(reg, files) ensures Incomplete(reg', files) {
      IncompleteStays(reg, reg', files);
    }
    hide Perform, IndexOf;
  }

  lemma PerformKeepsNone(w: World, todo: seq<Request>)
    requires todo != [] && Harmless(w.reg, todo) && Covered(w.reg, [], [])
    ensures Covered(Perform(w, todo[0]).reg, [], [])
  {
    var q, reg, reg' := todo[0], w.reg, Perform(w, todo[0]).reg;
    assert q in todo && IndexOf(reg').Keys <= IndexOf(reg).Keys;
    hide Incomplete;
    forall files | Incomplete(reg, files) ensures Incomplete(reg', files) {
      IncompleteStays(reg, reg', files);
    }
    StagedAfter(w, q);
    hide Perform, IndexOf;
  }

  lemma PerformKeepsCovered(w: World, todo: seq<Request>, shas: seq<Sha>)
    requires todo != [] && Covered(w.reg, todo, shas) && Harmless(w.reg, todo)
    ensures Covered(Perform(w, todo[0]).reg, todo[1..], shas) && Harmless(Perform(w, todo[0]).reg, todo[1..])
  {
    var q, reg, reg' := todo[0], w.reg, Perform(w, todo[0]).reg;
    assert q in todo;
    assert IndexOf(reg').Keys <= IndexOf(reg).Keys;
    hide Incomplete;
    forall files | Incomplete(reg, files) ensures Incomplete(reg', files) {
      IncompleteStays(reg, reg', files);
    }
    assert todo == [q] + todo[1..];
    StagedAfter(w, q);
    hide Perform, IndexOf;
  }

  /** Staged commits change by staging one or dropping one. */
  lemma StagedAfter(w: World, q: Request)
    ensures forall sha :: sha in Perform(w, q).reg.staged && q != DropStaged(sha) ==>
              (sha in w.reg.staged && Perform(w, q).reg.staged[sha] == w.reg.staged[sha]) ||
              (q.PutStaged? && Perform(w, q).reg.staged[sha] == q.doc)
    ensures q.DropStaged? ==> q.sha !in Perform(w, q).reg.staged
  {
  }

  lemma LockStepsKeepNoneForgotten(s: State, s': State)
    requires NoneForgotten(s) && (LockStep(TarLayers, s, s') || UnlockStep(s, s'))
    requires NobodyPromotes(s)
    ensures NoneForgotten(s')
  {
    hide Incomplete;
  }

  /** A failure anywhere but between an index update and the end of its promotion. */
  lemma FaultKeepsNoneForgotten(c: Codec, f: Faults, s: State, s': State)
    requires NoneForgotten(s) && !f.promotion
    requires FailInsideStep(f, s, s') || SkipStep(f, s, s') || SwallowStep(c, TarLayers, f, s, s')
    ensures NoneForgotten(s')
  {
    var x := s.lock.value;
    hide Incomplete, PutOrStageRequests;
    if SwallowStep(c, TarLayers, f, s, s') {
      var todo, next :| Swallows(c, TarLayers, f, s.w, x.next, todo, next) && s' == Decided(s, todo, next);
      PutOrStageIsHarmless(c, s.w.reg, x.next.manifest, x.next.refs, false);
    } else {
      NotInPromotion(s.w.reg, x);
      if SkipStep(f, s, s') { assert x.todo[0] in x.todo; }
    }
  }

  lemma NotInPromotion(reg: Registry, x: Section)
    requires Attended(reg, x) && !InPromotion(x)
    ensures Covered(reg, [], []) && !x.next.PromoteEach? && !x.next.ListStaged? && (x.next.CheckPending? ==> x.todo != [])
  {
    hide Incomplete;
  }

  lemma NextKeepsNoneForgotten(c: Codec, f: Faults, s: State, s': State)
    requires NoneForgotten(s) && TagsOk(s.w.reg) && Next(c, TarLayers, f, s, s') && !f.promotion
    requires NobodyPromotes(s)
    ensures NoneForgotten(s')
  {
    hide NoneForgotten, Quiet, TagsOk, LockStep, UnlockStep, OutsideStep, FaultOutsideStep, FailInsideStep, SkipStep, SwallowStep,
         Decides, Performed;
    if OutsideStep(c, TarLayers, s, s') || FaultOutsideStep(TarLayers, s, s') {
      OutsideIsQuiet(c, TarLayers, s, s');
      QuietKeepsNoneForgotten(s, s');
    } else if DecideStep(c, TarLayers, s, s') {
      var todo, next :| Decides(c, TarLayers, s.w, s.lock.value.next, todo, next) && s' == Decided(s, todo, next);
      DecideKeepsNoneForgotten(c, s, todo, next);
    } else if PerformStep(s, s') {
      PerformKeepsNoneForgotten(s);
    } else if LockStep(TarLayers, s, s') || UnlockStep(s, s') {
      LockStepsKeepNoneForgotten(s, s');
    } else {
      FaultKeepsNoneForgotten(c, f, s, s');
    }
  }

  /** Only modelpack waits for the lock with a promotion in mind. */
  lemma {:induction false} NobodyWaitsToPromote(c: Codec, f: Faults, trace: seq<State>, i: nat)
    requires Run(c, TarLayers, f, trace) && i < |trace|
    ensures NobodyPromotes(trace[i])
  {
    hide Next;
    if i > 0 {
      NobodyWaitsToPromote(c, f, trace, i - 1);
      assert Next(c, TarLayers, f, trace[i - 1], trace[i]);
      hide Run;
      NextPromotesNobody(c, f, trace[i - 1], trace[i]);
    }
  }

  ghost predicate NobodyPromotes(s: State) {
    forall t :: t in s.threads ==> !s.threads[t].pc.Promoting?
  }

  lemma OutsidePromotesNobody(c: Codec, s: State, s': State)
    requires NobodyPromotes(s) && (OutsideStep(c, TarLayers, s, s') || FaultOutsideStep(TarLayers, s, s'))
    ensures NobodyPromotes(s')
  {
    hide Uploaded, AlreadyHeld, HasPending;
  }

  lemma InsidePromotesNobody(c: Codec, f: Faults, s: State, s': State)
    requires NobodyPromotes(s)
    requires LockStep(TarLayers, s, s') || UnlockStep(s, s') || FailInsideStep(f, s, s') || s'.threads == s.threads
    ensures NobodyPromotes(s')
  {
    hide MayFail;
  }

  lemma NextPromotesNobody(c: Codec, f: Faults, s: State, s': State)
    requires Next(c, TarLayers, f, s, s') && NobodyPromotes(s)
    ensures NobodyPromotes(s')
  {
    hide NobodyPromotes, OutsideStep, FaultOutsideStep, LockStep, UnlockStep, FailInsideStep, Decides, Swallows, Perform, Record,
         Keep, Miss, MayFail;
    if OutsideStep(c, TarLayers, s, s') || FaultOutsideStep(TarLayers, s, s') {
      OutsidePromotesNobody(c, s, s');
    } else {
      InsidePromotesNobody(c, f, s, s');
    }
  }

  lemma {:induction false} RunForgetsNone(c: Codec, f: Faults, trace: seq<State>, i: nat)
    requires Run(c, TarLayers, f, trace) && i < |trace| && !f.promotion
    ensures NoneForgotten(trace[i])
  {
    hide Next;
    if i > 0 {
      hide NoneForgotten;
      RunForgetsNone(c, f, trace, i - 1);
      RunIsSound(c, TarLayers, f, trace, i - 1);
      SoundTagsOk(c, TarLayers, trace[i - 1]);
      NobodyWaitsToPromote(c, f, trace, i - 1);
      NextKeepsNoneForgotten(c, f, trace[i - 1], trace[i]);
    }
  }

  lemma SoundTagsOk(c: Codec, format: Format, s: State)
    requires Sound(c, format, s)
    ensures TagsOk(s.w.reg)
  {
  }

  /** In tar-layers format, over every interleaving with failures anywhere but between a PutBlob's
      index update and the end of its promotion: whenever the repo lock is free, every staged
      commit has a file that is not keyed by sha256 or not in the index, and a negative look for
      promotion work means that nothing is staged. */
  lemma NothingCompleteStaysStaged(c: Codec, f: Faults, trace: seq<State>, i: nat, sha: Sha)
    requires Run(c, TarLayers, f, trace) && i < |trace| && !f.promotion
    requires trace[i].lock.None? && sha in trace[i].w.reg.staged
    ensures var files := trace[i].w.reg.staged[sha].manifest.files;
            exists k :: 0 <= k < |files| &&
              (files[k].digest.None? || files[k].digest.value.Sha1? || files[k].digest.value !in IndexOf(trace[i].w.reg))
    ensures HasPending(trace[i].w)
  {
    RunForgetsNone(c, f, trace, i);
    hide Run;
    var reg := trace[i].w.reg;
    NothingMissing(TarLayers, reg, reg.staged[sha].manifest.files);
    hide Missing;
    var files := reg.staged[sha].manifest.files;
    var k :| 0 <= k < |files| && Locate(TarLayers, reg, files[k]).None?;
  }

  // ---------------------------------------------------------------- stored contents stay found

  ghost predicate NoDeletes(s: State) {
    forall t :: t in s.threads ==> !s.threads[t].call.DeleteRepoCall?
  }

  ghost predicate Indexing(reg: Registry, x: Section) {
    x.call.PutBlobCall? && !x.next.UpdateIndex? ==>
      x.call.digest in IndexOf(reg) || exists q :: q in x.todo && q.PutIndex? && x.call.digest in q.index
  }

  /** A PutBlob that has answered yes has its content in the index. */
  ghost predicate Found(s: State) {
    && (forall t :: t in s.threads && s.threads[t].call.PutBlobCall? && s.threads[t].pc == Returned(true) ==>
          s.threads[t].call.digest in IndexOf(s.w.reg))
    && (forall t :: t in s.threads ==> !s.threads[t].pc.Promoting?)
    && (s.lock.Some? ==> Indexing(s.w.reg, s.lock.value))
  }

  lemma OneKeepsFound(s: State, s': State, t: nat)
    requires Found(s) && s'.lock == s.lock && t in s'.threads && s'.threads == s.threads[t := s'.threads[t]]
    requires IndexOf(s'.w.reg) == IndexOf(s.w.reg) && !s'.threads[t].pc.Promoting?
    requires s'.threads[t].call.PutBlobCall? && s'.threads[t].pc == Returned(true) ==>
               s'.threads[t].call.digest in IndexOf(s.w.reg)
    ensures Found(s')
  {
    hide IndexOf;
  }

  lemma SameThreadsKeepFound(s: State, s': State)
    requires Found(s) && s'.lock == s.lock && s'.threads == s.threads && s'.w.reg == s.w.reg
    ensures Found(s')
  {
    hide IndexOf;
  }

  lemma OutsideKeepsFound(c: Codec, s: State, s': State)
    requires Found(s) && (OutsideStep(c, TarLayers, s, s') || FaultOutsideStep(TarLayers, s, s'))
    ensures Found(s')
  {
    OutsideIsQuiet(c, TarLayers, s, s');
    assert IndexOf(s'.w.reg) == IndexOf(s.w.reg);
    hide Found, IndexOf, HasPending, Uploaded, Quiet;
    if StartStep(s, s') {
      var t: nat, call :| t !in s.threads && s' == Started(s, t, call);
      OneKeepsFound(s, s', t);
    } else if CheckStep(TarLayers, s, s') {
      var t :| t in s.threads && s.threads[t].pc.Begin? && s.threads[t].call.PutBlobCall? && s' == Checked(TarLayers, s, t);
      OneKeepsFound(s, s', t);
    } else if UploadStep(c, TarLayers, s, s') {
      var t, cut :| t in s.threads && s.threads[t].pc.Uploading? && s.threads[t].call.PutBlobCall? &&
                    s' == AfterUpload(c, TarLayers, s, t, cut);
      OneKeepsFound(s, s', t);
    } else if RestartStep(s, s') {
      SameThreadsKeepFound(s, s');
    } else {
      var t :| t in s.threads && !s.threads[t].pc.Inside? && !s.threads[t].pc.Returned? && s' == At(s, t, Returned(false));
      OneKeepsFound(s, s', t);
    }
  }

  lemma InsideKeepsFound(c: Codec, f: Faults, s: State, s': State)
    requires Found(s) && Owned(s) && s'.w == s.w
    requires LockStep(TarLayers, s, s') || UnlockStep(s, s') || FailInsideStep(f, s, s') || SkipStep(f, s, s')
    ensures Found(s')
  {
    hide IndexOf;
  }

  lemma DecideKeepsFound(c: Codec, s: State, todo: seq<Request>, next: Decision)
    requires Found(s) && s.lock.Some? && s.lock.value.todo == [] && OwnKind(s.lock.value)
    requires Decides(c, TarLayers, s.w, s.lock.value.next, todo, next)
    ensures Found(Decided(s, todo, next))
  {
    hide IndexOf, PutOrStageRequests, PromoteRequests, EntryFor, Enumerates, TagsOf;
    var x := s.lock.value;
    if x.next.UpdateIndex? {
      assert todo[2].PutIndex? && todo[2] in todo;
    }
  }

  lemma SwallowKeepsFound(c: Codec, f: Faults, s: State, todo: seq<Request>, next: Decision)
    requires Found(s) && s.lock.Some? && s.lock.value.todo == []
    requires Swallows(c, TarLayers, f, s.w, s.lock.value.next, todo, next)
    ensures Found(Decided(s, todo, next))
  {
    hide IndexOf, PutOrStageRequests;
  }

  lemma PerformKeepsIndexing(c: Codec, w: World, x: Section)
    requires Indexing(w.reg, x) && x.todo != [] && Prepared(c, w.reg, x.todo[0]) && !x.todo[0].DeleteTag?
    ensures IndexOf(w.reg).Keys <= IndexOf(Perform(w, x.todo[0]).reg).Keys
    ensures Indexing(Perform(w, x.todo[0]).reg, x.(todo := x.todo[1..]))
  {
    hide IndexOk, ImageOk;
    assert x.todo == [x.todo[0]] + x.todo[1..];
  }

  lemma PerformKeepsFound(c: Codec, s: State)
    requires Found(s) && s.lock.Some? && s.lock.value.todo != [] && Prepared(c, s.w.reg, s.lock.value.todo[0])
    requires !s.lock.value.todo[0].DeleteTag?
    ensures Found(Performed(s))
  {
    PerformKeepsIndexing(c, s.w, s.lock.value);
    hide IndexOf, Perform, Indexing, Prepared;
  }

  lemma NextKeepsFound(c: Codec, f: Faults, s: State, s': State)
    requires Found(s) && Owned(s) && Sound(c, TarLayers, s) && NoDeletes(s) && Next(c, TarLayers, f, s, s')
    ensures Found(s')
  {
    hide Found, RegistryOk, Prepared, Decides, Swallows, Performed, OutsideStep, FaultOutsideStep, LockStep, UnlockStep,
         FailInsideStep, SkipStep;
    if OutsideStep(c, TarLayers, s, s') || FaultOutsideStep(TarLayers, s, s') {
      OutsideKeepsFound(c, s, s');
    } else if DecideStep(c, TarLayers, s, s') {
      var todo, next :| Decides(c, TarLayers, s.w, s.lock.value.next, todo, next) && s' == Decided(s, todo, next);
      DecideKeepsFound(c, s, todo, next);
    } else if SwallowStep(c, TarLayers, f, s, s') {
      var todo, next :| Swallows(c, TarLayers, f, s.w, s.lock.value.next, todo, next) && s' == Decided(s, todo, next);
      SwallowKeepsFound(c, f, s, todo, next);
    } else if PerformStep(s, s') {
      PerformKeepsFound(c, s);
    } else {
      InsideKeepsWorld(f, s, s');
      InsideKeepsFound(c, f, s, s');
    }
  }

  lemma InsideKeepsWorld(f: Faults, s: State, s': State)
    requires LockStep(TarLayers, s, s') || UnlockStep(s, s') || FailInsideStep(f, s, s') || SkipStep(f, s, s')
    ensures s'.w == s.w
  {
  }

  lemma {:induction false} RunKeepsFound(c: Codec, f: Faults, trace: seq<State>, i: nat)
    requires Run(c, TarLayers, f, trace) && i < |trace|
    requires forall j :: 0 <= j < i ==> NoDeletes(trace[j])
    ensures Found(trace[i])
  {
    hide Next;
    if i > 0 {
      hide Found, Owned, Sound, NoDeletes;
      RunKeepsFound(c, f, trace, i - 1);
      RunIsOwned(c, TarLayers, f, trace, i - 1);
      RunIsSound(c, TarLayers, f, trace, i - 1);
      NextKeepsFound(c, f, trace[i - 1], trace[i]);
    }
  }

  /** Concurrent PutBlobs never lose each other's entries: while no DeleteRepo has been called,
      a content whose PutBlob answered yes is in the index, failures of other calls included. */
  lemma StoredContentIsFound(c: Codec, f: Faults, trace: seq<State>, i: nat, t: nat)
    requires Run(c, TarLayers, f, trace) && i < |trace| && (forall j :: 0 <= j < i ==> NoDeletes(trace[j]))
    requires t in trace[i].threads && trace[i].threads[t].call.PutBlobCall? && trace[i].threads[t].pc == Returned(true)
    ensures trace[i].threads[t].call.digest in IndexOf(trace[i].w.reg)
  {
    hide Run;
    RunKeepsFound(c, f, trace, i);
  }

  /** In modelpack format a PutBlob that is past its upload has its content in the registry. */
  ghost predicate Stored(s: State) {
    forall t :: t in s.threads && s.threads[t].call.PutBlobCall? && PastUpload(s.threads[t].pc) ==>
      s.threads[t].call.digest in s.w.reg.blobs
  }

  predicate PastUpload(pc: Pc) { pc.Verified? || pc.Promoting? || pc.Inside? || pc == Returned(true) }

  /** One thread moves and blobs stay. */
  lemma OneKeepsStored(s: State, s': State, t: nat)
    requires Stored(s) && t in s'.threads && s'.threads == s.threads[t := s'.threads[t]] && s.w.reg.blobs <= s'.w.reg.blobs
    requires s'.threads[t].call.PutBlobCall? && PastUpload(s'.threads[t].pc) ==> s'.threads[t].call.digest in s'.w.reg.blobs
    ensures Stored(s')
  {
  }

  lemma UploadKeepsStored(c: Codec, s: State, s': State)
    requires Stored(s) && UploadStep(c, ModelPack, s, s')
    ensures Stored(s')
  {
    hide Stored;
    var t, cut :| t in s.threads && s.threads[t].pc.Uploading? && s.threads[t].call.PutBlobCall? &&
                  s' == AfterUpload(c, ModelPack, s, t, cut);
    OneKeepsStored(s, s', t);
  }

  lemma OutsideKeepsStored(c: Codec, s: State, s': State)
    requires Stored(s) && (OutsideStep(c, ModelPack, s, s') || FaultOutsideStep(ModelPack, s, s'))
    ensures Stored(s')
  {
    OutsideIsQuiet(c, ModelPack, s, s');
    hide UploadStep, HasPending;
    assert s.w.reg.blobs <= s'.w.reg.blobs;
    hide Quiet;
    if UploadStep(c, ModelPack, s, s') {
      UploadKeepsStored(c, s, s');
    }
  }

  lemma InsideKeepsStored(c: Codec, f: Faults, s: State, s': State)
    requires Stored(s) && Owned(s)
    requires LockStep(ModelPack, s, s') || UnlockStep(s, s') || FailInsideStep(f, s, s') ||
             (s'.threads == s.threads && s.w.reg.blobs <= s'.w.reg.blobs)
    ensures Stored(s')
  {
    hide MayFail, OwnKind;
  }

  lemma NextKeepsStored(c: Codec, f: Faults, s: State, s': State)
    requires Stored(s) && Owned(s) && Next(c, ModelPack, f, s, s')
    ensures Stored(s')
  {
    hide Stored, Owned, OutsideStep, FaultOutsideStep, LockStep, UnlockStep, FailInsideStep, Decides, Swallows, Perform, MayFail,
         Record, Keep, Miss;
    if OutsideStep(c, ModelPack, s, s') || FaultOutsideStep(ModelPack, s, s') {
      OutsideKeepsStored(c, s, s');
    } else {
      if PerformStep(s, s') { PerformGrows(s.w, s.lock.value.todo[0]); }
      InsideKeepsStored(c, f, s, s');
    }
  }

  /** In modelpack format, over every run, failures and deletions included: a PutBlob that answered
      yes, or is past its upload, has its content in the registry. */
  lemma {:induction false} ModelPackContentIsStored(c: Codec, f: Faults, trace: seq<State>, i: nat)
    requires Run(c, ModelPack, f, trace) && i < |trace|
    ensures Stored(trace[i])
  {
    hide Next;
    if i > 0 {
      hide Stored, Owned;
      ModelPackContentIsStored(c, f, trace, i - 1);
      RunIsOwned(c, ModelPack, f, trace, i - 1);
      NextKeepsStored(c, f, trace[i - 1], trace[i]);
    }
  }

  // ---------------------------------------------------------------- runs step by step

  lemma RunGrows(c: Codec, format: Format, f: Faults, trace: seq<State>, s: State) returns (trace': seq<State>)
    requires Run(c, format, f, trace) && Next(c, format, f, trace[|trace| - 1], s)
    ensures Run(c, format, f, trace') && trace <= trace' && trace' != [] && trace'[|trace'| - 1] == s
  {
    hide Next;
    trace' := trace + [s];
  }

  /** The record after a list of requests. */
  function RecordAll(recorded: map<Sha, set<string>>, w: World, todo: seq<Request>): map<Sha, set<string>>
    decreases |todo|
  {
    if todo == [] then recorded else RecordAll(Record(recorded, w.reg, todo[0]), Perform(w, todo[0]), todo[1..])
  }

  /** The lock holder's requests are performed one after the other. */
  lemma {:induction false} RequestsRun(c: Codec, format: Format, f: Faults, trace: seq<State>) returns (trace': seq<State>)
    requires Run(c, format, f, trace) && trace[|trace| - 1].lock.Some?
    ensures Run(c, format, f, trace') && trace <= trace' && trace' != []
    ensures var s, s' := trace[|trace| - 1], trace'[|trace'| - 1];
            s' == s.(w := PerformAll(s.w, s.lock.value.todo), recorded := RecordAll(s.recorded, s.w, s.lock.value.todo),
                     kept := s'.kept, missed := s'.missed, lock := Some(s.lock.value.(todo := [])))
    decreases |trace[|trace| - 1].lock.value.todo|
  {
    var s := trace[|trace| - 1];
    if s.lock.value.todo == [] {
      trace' := trace;
    } else {
      trace' := RequestRuns(c, format, f, trace);
      hide Run, Perform, Record, Keep, Miss;
      trace' := RequestsRun(c, format, f, trace');
    }
  }

  lemma RequestRuns(c: Codec, format: Format, f: Faults, trace: seq<State>) returns (trace': seq<State>)
    requires Run(c, format, f, trace) && trace[|trace| - 1].lock.Some? && trace[|trace| - 1].lock.value.todo != []
    ensures Run(c, format, f, trace') && trace <= trace' && trace' != [] && trace'[|trace'| - 1] == Performed(trace[|trace| - 1])
  {
    var s := trace[|trace| - 1];
    hide Run, Performed, OutsideStep, LockStep, DecideStep, UnlockStep;
    assert PerformStep(s, Performed(s));
    trace' := RunGrows(c, format, f, trace, Performed(s));
  }

  /** The lock holder's last requests, and the lock is free again. */
  lemma SectionEnds(c: Codec, format: Format, f: Faults, trace: seq<State>) returns (trace': seq<State>)
    requires Run(c, format, f, trace)
    requires var s := trace[|trace| - 1];
             s.lock.Some? && s.lock.value.next.Done? && s.lock.value.owner in s.threads
    ensures Run(c, format, f, trace') && trace <= trace' && trace' != []
    ensures var s, s' := trace[|trace| - 1], trace'[|trace'| - 1];
            s' == s.(w := PerformAll(s.w, s.lock.value.todo), recorded := RecordAll(s.recorded, s.w, s.lock.value.todo),
                     kept := s'.kept, missed := s'.missed, lock := None,
                     threads := At(s, s.lock.value.owner, Returned(true)).threads)
  {
    hide Run, PerformAll, RecordAll;
    trace' := RequestsRun(c, format, f, trace);
    var s := trace'[|trace'| - 1];
    trace' := RunGrows(c, format, f, trace', At(s, s.lock.value.owner, Returned(true)).(lock := None));
  }

  /** A PutManifest starts and takes the free lock. */
  lemma ManifestEnters(c: Codec, format: Format, f: Faults, trace: seq<State>, t: nat, m: Manifest, refs: seq<string>)
    returns (trace': seq<State>)
    requires Run(c, format, f, trace) && trace[|trace| - 1].lock.None? && t !in trace[|trace| - 1].threads
    ensures Run(c, format, f, trace') && trace <= trace' && trace' != []
    ensures var s, call := trace[|trace| - 1], PutManifestCall(m, refs);
            trace'[|trace'| - 1] == s.(lock := Some(Section(t, call, [], PutOrStage(m, refs))),
                                       threads := s.threads[t := Thread(call, Inside)])
  {
    var s, call := trace[|trace| - 1], PutManifestCall(m, refs);
    hide Run;
    var s1 := Started(s, t, call);
    assert StartStep(s, s1);
    trace' := RunGrows(c, format, f, trace, s1);
    var s2 := Entered(format, s1, t);
    assert LockStep(format, s1, s2);
    trace' := RunGrows(c, format, f, trace', s2);
    assert s2.threads == s.threads[t := Thread(call, Inside)];
  }

  /** A PutManifest alone, from its start to its answer. */
  lemma ManifestRuns(c: Codec, format: Format, f: Faults, trace: seq<State>, t: nat, m: Manifest, refs: seq<string>)
    returns (trace': seq<State>)
    requires Run(c, format, f, trace) && trace[|trace| - 1].lock.None? && t !in trace[|trace| - 1].threads
    ensures Run(c, format, f, trace') && trace <= trace' && trace' != []
    ensures var s, s' := trace[|trace| - 1], trace'[|trace'| - 1];
            s'.lock.None? && s'.threads == s.threads[t := Thread(PutManifestCall(m, refs), Returned(true))] &&
            var todo := PutOrStageRequests(c, format, s.w.reg, m, refs, true);
            s'.w == PerformAll(s.w, todo) && s'.recorded == RecordAll(s.recorded, s.w, todo)
  {
    var s := trace[|trace| - 1];
    hide Run, PutOrStageRequests, PerformAll, RecordAll;
    trace' := ManifestEnters(c, format, f, trace, t, m, refs);
    var s1 := trace'[|trace'| - 1];
    var todo := PutOrStageRequests(c, format, s.w.reg, m, refs, true);
    assert Decides(c, format, s1.w, s1.lock.value.next, todo, Done);
    assert DecideStep(c, format, s1, Decided(s1, todo, Done));
    trace' := RunGrows(c, format, f, trace', Decided(s1, todo, Done));
    trace' := SectionEnds(c, format, f, trace');
  }

  lemma StageEffect(c: Codec, w: World, m: Manifest, refs: seq<string>, readable: bool)
    ensures var w' := PerformAll(w, StageRequests(c, w.reg, m, refs, readable));
            var doc := Staged(m, Join(StagedRefs(w.reg, m, refs, readable)));
            w' == World(w.reg.(staged := w.reg.staged[m.sha := doc], blobs := w'.reg.blobs), true) &&
            w'.reg.blobs == w.reg.blobs + {Sha256(c.manifest(m)), Sha256(EMPTY_JSON)}
  {
    PerformFour(w, StageRequests(c, w.reg, m, refs, readable));
    hide PerformAll, StagedRefs, Join;
  }

  lemma SaveEffect(c: Codec, w: World, index: Index)
    ensures var w' := PerformAll(w, SaveRequests(c, index));
            w' == w.(reg := w.reg.(index := Some(index), blobs := w'.reg.blobs))
  {
    PerformThree(w, SaveRequests(c, index));
    hide PerformAll;
  }

  /** A PutBlob alone, up to its index update. */
  lemma BlobIndexed(c: Codec, f: Faults, trace: seq<State>, t: nat, data: Bytes) returns (trace': seq<State>)
    requires Run(c, TarLayers, f, trace)
    requires var s := trace[|trace| - 1];
             s.lock.None? && t !in s.threads && Sha256(data) !in IndexOf(s.w.reg)
    ensures Run(c, TarLayers, f, trace') && trace <= trace' && trace' != []
    ensures var s, s' := trace[|trace| - 1], trace'[|trace'| - 1];
            var call := PutBlobCall(Sha256(data), data, |data|);
            s'.lock == Some(Section(t, call, [], CheckPending)) && s'.threads == s.threads[t := Thread(call, Inside)] &&
            s'.w == s.w.(reg := s.w.reg.(index := s'.w.reg.index, blobs := s'.w.reg.blobs)) &&
            IndexOf(s'.w.reg) == IndexOf(s.w.reg)[Sha256(data) := EntryFor(c, Sha256(data))]
  {
    var s, d := trace[|trace| - 1], Sha256(data);
    hide Run, EntryFor;
    var call := PutBlobCall(d, data, |data|);
    var s1 := Started(s, t, call);
    assert StartStep(s, s1);
    trace' := RunGrows(c, TarLayers, f, trace, s1);
    var s2 := At(s1, t, Uploading);
    assert CheckStep(TarLayers, s1, s2) by { assert s2 == Checked(TarLayers, s1, t); }
    trace' := RunGrows(c, TarLayers, f, trace', s2);
    var s3 := AfterUpload(c, TarLayers, s2, t, true);
    assert UploadStep(c, TarLayers, s2, s3);
    assert s3.threads[t] == Thread(call, Verified) && s3.w == s.w.(reg := s.w.reg.(blobs := s3.w.reg.blobs));
    trace' := RunGrows(c, TarLayers, f, trace', s3);
    trace' := VerifiedIndexed(c, f, trace', t, data);
  }

  lemma VerifiedIndexed(c: Codec, f: Faults, trace: seq<State>, t: nat, data: Bytes) returns (trace': seq<State>)
    requires Run(c, TarLayers, f, trace)
    requires var s := trace[|trace| - 1];
             s.lock.None? && t in s.threads && s.threads[t] == Thread(PutBlobCall(Sha256(data), data, |data|), Verified)
    ensures Run(c, TarLayers, f, trace') && trace <= trace' && trace' != []
    ensures var s, s' := trace[|trace| - 1], trace'[|trace'| - 1];
            var call := PutBlobCall(Sha256(data), data, |data|);
            s'.lock == Some(Section(t, call, [], CheckPending)) && s'.threads == s.threads[t := Thread(call, Inside)] &&
            s'.w == s.w.(reg := s.w.reg.(index := s'.w.reg.index, blobs := s'.w.reg.blobs)) &&
            IndexOf(s'.w.reg) == IndexOf(s.w.reg)[Sha256(data) := EntryFor(c, Sha256(data))]
  {
    var s3, d := trace[|trace| - 1], Sha256(data);
    hide Run;
    var s4 := Entered(TarLayers, s3, t);
    assert LockStep(TarLayers, s3, s4);
    trace' := RunGrows(c, TarLayers, f, trace, s4);
    var index := IndexOf(s4.w.reg)[d := EntryFor(c, d)];
    var s5 := Decided(s4, SaveRequests(c, index), CheckPending);
    assert Decides(c, TarLayers, s4.w, s4.lock.value.next, SaveRequests(c, index), CheckPending);
    assert DecideStep(c, TarLayers, s4, s5);
    hide SaveRequests, EntryFor;
    trace' := RunGrows(c, TarLayers, f, trace', s5);
    trace' := RequestsRun(c, TarLayers, f, trace');
    SaveEffect(c, s5.w, index);
  }

  // ---------------------------------------------------------------- what a failure costs

  /** The commit of one file that waits for its content. */
  function OneFile(sha: Sha, p: string, data: Bytes): Manifest { Manifest(sha, [File(p, Some(Sha256(data)))]) }

  /** A commit is staged, its only content arrives and is indexed, and the PutBlob's next call fails. */
  lemma StagedThenFailed(c: Codec, f: Faults, sha: Sha, p: string, data: Bytes, refs: seq<string>) returns (trace: seq<State>)
    requires f.promotion
    ensures Run(c, TarLayers, f, trace) && trace != []
    ensures var s := trace[|trace| - 1];
            s.lock.None? && sha in s.w.reg.staged && s.w.reg.staged[sha].manifest == OneFile(sha, p, data) &&
            Sha256(data) in IndexOf(s.w.reg) && s.threads.Keys == {0, 1}
  {
    var m := OneFile(sha, p, data);
    assert Missing(TarLayers, EMPTY.w.reg, m.files) != [] by {
      NothingMissing(TarLayers, EMPTY.w.reg, m.files);
      assert Locate(TarLayers, EMPTY.w.reg, m.files[0]).None?;
    }
    assert Run(c, TarLayers, f, [EMPTY]);
    hide Missing, StagedRefs, Join, StageRequests, PublishRequests, LayersOf, EntryFor, Run, PerformAll;
    trace := ManifestRuns(c, TarLayers, f, [EMPTY], 0, m, refs);
    StageEffect(c, EMPTY.w, m, refs, true);
    trace := BlobIndexed(c, f, trace, 1, data);
    var s := trace[|trace| - 1];
    assert FailInsideStep(f, s, FailedInside(s));
    trace := RunGrows(c, TarLayers, f, trace, FailedInside(s));
  }

  /** A registry failure between the index update and the promotion leaves a complete commit
      staged, and repeating the PutBlob answers yes at its first look without promoting it. */
  lemma FailedPromotionIsNotRetried(c: Codec, f: Faults, sha: Sha, p: string, data: Bytes, refs: seq<string>) returns (trace: seq<State>)
    requires f.promotion
    ensures Run(c, TarLayers, f, trace) && trace != []
    ensures var s := trace[|trace| - 1];
            s.lock.None? && sha in s.w.reg.staged && s.w.reg.staged[sha].manifest == OneFile(sha, p, data) &&
            Sha256(data) in IndexOf(s.w.reg) && s.threads.Keys == {0, 1, 2} &&
            s.threads[2] == Thread(PutBlobCall(Sha256(data), data, |data|), Returned(true))
  {
    trace := StagedThenFailed(c, f, sha, p, data, refs);
    hide Run;
    var s := trace[|trace| - 1];
    var call := PutBlobCall(Sha256(data), data, |data|);
    var s1 := Started(s, 2, call);
    assert StartStep(s, s1);
    trace := RunGrows(c, TarLayers, f, trace, s1);
    var s2 := At(s1, 2, Returned(true));
    assert CheckStep(TarLayers, s1, s2) by { assert s2 == Checked(TarLayers, s1, 2); }
    trace := RunGrows(c, TarLayers, f, trace, s2);
  }

  /** No staged commit is complete. */
  ghost predicate NoneComplete(reg: Registry) {
    forall sha :: sha in reg.staged ==> Incomplete(reg, reg.staged[sha].manifest.files)
  }

  /** In tar-layers format every run, whatever else fails in it, has no complete commit staged
      whenever the repo lock is free, if and only if registry calls do not fail, and the process
      does not stop, between a PutBlob's index update and the end of its promotion. */
  lemma NothingCompleteStaysStagedExactlyWhen(c: Codec, f: Faults)
    ensures (forall trace: seq<State>, i ::
               Run(c, TarLayers, f, trace) && 0 <= i < |trace| && trace[i].lock.None? ==> NoneComplete(trace[i].w.reg)) <==>
            !f.promotion
  {
    hide Run, Incomplete;
    if f.promotion {
      var trace := StagedThenFailed(c, f, "", "", [], []);
      var s := trace[|trace| - 1];
      IndexedIsComplete(s.w.reg, OneFile("", "", []).files);
      assert !NoneComplete(s.w.reg);
    } else {
      forall trace: seq<State>, i | Run(c, TarLayers, f, trace) && 0 <= i < |trace| && trace[i].lock.None?
        ensures NoneComplete(trace[i].w.reg)
      {
        RunForgetsNone(c, f, trace, i);
      }
    }
  }

  lemma IndexedIsComplete(reg: Registry, files: seq<File>)
    requires |files| == 1 && files[0].digest.Some? && files[0].digest.value.Sha256? && files[0].digest.value in IndexOf(reg)
    ensures !Incomplete(reg, files)
  {
    NothingMissing(TarLayers, reg, files);
    hide Missing;
  }

  // ---------------------------------------------------------------- a PutBlob that leaves what is staged

  /** A PutBlob alone, after its index update, when the only staged commit stays incomplete. */
  lemma BlobLeaves(c: Codec, f: Faults, trace: seq<State>, sha: Sha) returns (trace': seq<State>)
    requires Run(c, TarLayers, f, trace)
    requires var s := trace[|trace| - 1];
             s.lock.Some? && s.lock.value.todo == [] && s.lock.value.next.CheckPending? && s.lock.value.owner in s.threads &&
             s.w.reg.staged.Keys == {sha} && LeavesStaged(TarLayers, s.w.reg, sha, true)
    ensures Run(c, TarLayers, f, trace') && trace <= trace' && trace' != []
    ensures var s, s' := trace[|trace| - 1], trace'[|trace'| - 1];
            s'.lock.None? && s'.threads == At(s, s.lock.value.owner, Returned(true)).threads && s'.w.reg == s.w.reg
  {
    var s := trace[|trace| - 1];
    hide Run, LeavesStaged;
    assert s.w.reg.staged != map[];
    var s1 := Decided(s, [SetPending(true)], ListStaged);
    assert DecideStep(c, TarLayers, s, s1) by {
      assert Decides(c, TarLayers, s.w, s.lock.value.next, [SetPending(true)], ListStaged);
    }
    trace' := RunGrows(c, TarLayers, f, trace, s1);
    trace' := RequestsRun(c, TarLayers, f, trace');
    PerformOne(s.w, [SetPending(true)]);
    var s2 := trace'[|trace'| - 1];
    assert s2.w.reg == s.w.reg;
    hide PerformAll;
    trace' := PromotionLeaves(c, f, trace', sha);
  }

  lemma PromotionLeaves(c: Codec, f: Faults, trace: seq<State>, sha: Sha) returns (trace': seq<State>)
    requires Run(c, TarLayers, f, trace)
    requires var s := trace[|trace| - 1];
             s.lock.Some? && s.lock.value.todo == [] && s.lock.value.next.ListStaged? && s.lock.value.owner in s.threads &&
             s.w.reg.staged.Keys == {sha} && LeavesStaged(TarLayers, s.w.reg, sha, true)
    ensures Run(c, TarLayers, f, trace') && trace <= trace' && trace' != []
    ensures var s, s' := trace[|trace| - 1], trace'[|trace'| - 1];
            s'.lock.None? && s'.threads == At(s, s.lock.value.owner, Returned(true)).threads && s'.w.reg == s.w.reg
  {
    var s := trace[|trace| - 1];
    hide Run, Missing;
    var s1 := Decided(s, [], PromoteEach([sha], false));
    assert Enumerates([sha], s.w.reg.staged.Keys);
    assert Decides(c, TarLayers, s.w, s.lock.value.next, [], PromoteEach([sha], false));
    assert DecideStep(c, TarLayers, s, s1);
    trace' := RunGrows(c, TarLayers, f, trace, s1);
    var s2 := Decided(s1, [], PromoteEach([], true));
    assert [sha][1..] == [];
    assert Decides(c, TarLayers, s1.w, s1.lock.value.next, [], PromoteEach([], true));
    assert DecideStep(c, TarLayers, s1, s2);
    trace' := RunGrows(c, TarLayers, f, trace', s2);
    var s3 := Decided(s2, [], Done);
    assert Decides(c, TarLayers, s2.w, s2.lock.value.next, [], Done);
    assert DecideStep(c, TarLayers, s2, s3);
    trace' := RunGrows(c, TarLayers, f, trace', s3);
    trace' := RunGrows(c, TarLayers, f, trace', At(s3, s3.lock.value.owner, Returned(true)).(lock := None));
  }
}
