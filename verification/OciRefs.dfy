/** Which refs a staged commit receives: its annotation and its promotion have exactly those asked
    for since a staging last failed to read its tag, a direct publish only its own. */
module OciRefs {
  import opened Common
  import opened StringOrder
  import opened OciStaging
  import opened OciRuns
  import opened OciProperties
  import opened OciPromotion

  predicate Plain(refs: seq<string>) { forall r :: r in refs ==> ',' !in r }

  /** No caller names a ref with a comma. */
  ghost predicate PlainCalls(s: State) {
    forall t :: t in s.threads && s.threads[t].call.PutManifestCall? ==> Plain(s.threads[t].call.refs)
  }

  /** A staged tag's annotation lists exactly the refs asked for since a staging last failed to
      read the tag; if none failed, that is every ref asked for since the tag appeared. */
  ghost predicate Annotated(reg: Registry, recorded: map<Sha, set<string>>, kept: map<Sha, set<string>>, missed: set<Sha>) {
    forall sha :: sha in reg.staged ==>
      sha in recorded && sha in kept && Names(Split(reg.staged[sha].refs)) == kept[sha] && kept[sha] <= recorded[sha] &&
      (sha !in missed ==> kept[sha] == recorded[sha])
  }

  /** A staging about to happen adds its refs to those it could read. */
  ghost predicate StagesRight(reg: Registry, kept: map<Sha, set<string>>, todo: seq<Request>) {
    forall k :: 0 <= k < |todo| && todo[k].PutStaged? ==>
      Names(Split(todo[k].doc.refs)) ==
      (if todo[k].read then RecordedFor(kept, reg, todo[k].doc.manifest.sha) else {}) + Names(todo[k].given) &&
      forall j :: 0 <= j < |todo| && j != k ==> todo[j].PushBlob? || todo[j].SetPending?
  }

  /** A promotion under way: its refs are the kept ones, each written or still to be written. */
  ghost predicate PromotesRight(reg: Registry, kept: map<Sha, set<string>>, todo: seq<Request>, sha: Sha) {
    && sha in reg.staged && sha in kept
    && (forall q :: q in todo ==> !q.PutStaged? && !q.DeleteTag? && (q.PutRef? ==> q.image.manifest.sha == sha && q.name in kept[sha]))
    && (forall r :: r in kept[sha] ==>
          (r in reg.refs && reg.refs[r].manifest.sha == sha) || exists q :: q in todo && q.PutRef? && q.name == r)
    && (sha in reg.commits || exists q :: q in todo && q.PutCommit? && q.image.manifest.sha == sha)
  }

  ghost predicate SectionRight(reg: Registry, kept: map<Sha, set<string>>, x: Section) {
    && StagesRight(reg, kept, x.todo)
    && (x.next.PutOrStage? ==> Plain(x.next.refs))
    && (x.next.PromoteEach? ==>
          DropsLast(x.todo) && (forall q :: q in x.todo && q.PutRef? ==> DropStaged(q.image.manifest.sha) in x.todo) &&
          forall sha :: DropStaged(sha) in x.todo ==> PromotesRight(reg, kept, x.todo, sha))
  }

  predicate DropsLast(todo: seq<Request>) {
    forall k :: 0 <= k < |todo| && todo[k].DropStaged? ==> k == |todo| - 1
  }

  ghost predicate RefsRight(s: State) {
    Annotated(s.w.reg, s.recorded, s.kept, s.missed) && (s.lock.Some? ==> SectionRight(s.w.reg, s.kept, s.lock.value))
  }

  // ---------------------------------------------------------------- decisions

  lemma NamesOfSorted(names: set<string>)
    requires "" !in names
    ensures Names(Sorted(names)) == names
  {
    SortedLists(names);
  }

  /** A staged tag's annotation, read back. */
  ghost predicate Kept(reg: Registry, kept: map<Sha, set<string>>) {
    forall sha :: sha in reg.staged ==> sha in kept && Names(Split(reg.staged[sha].refs)) == kept[sha]
  }

  /** What a staging writes down reads back as what it could read and the new refs. */
  lemma StagingRecords(reg: Registry, kept: map<Sha, set<string>>, m: Manifest, refs: seq<string>, readable: bool)
    requires Kept(reg, kept) && Plain(refs)
    ensures Names(Split(Join(StagedRefs(reg, m, refs, readable)))) ==
            (if readable then RecordedFor(kept, reg, m.sha) else {}) + Names(refs)
  {
    var merged := StagedRefs(reg, m, refs, readable);
    hide Split, Join, Sorted;
    if readable && m.sha in reg.staged {
      var parts := Split(reg.staged[m.sha].refs);
      var names := Names(refs + parts);
      PiecesArePlain(reg.staged[m.sha].refs);
      SortedLists(names);
      NamesOfSorted(names);
      RefsSurviveExactlyWhen(merged);
      assert names == Names(refs) + Names(parts);
    } else {
      RefsSurviveExactlyWhen(refs);
    }
  }

  lemma StageIsRight(c: Codec, reg: Registry, kept: map<Sha, set<string>>, m: Manifest, refs: seq<string>, readable: bool)
    requires Kept(reg, kept) && Plain(refs)
    ensures StagesRight(reg, kept, StageRequests(c, reg, m, refs, readable))
  {
    StagingRecords(reg, kept, m, refs, readable);
    hide Split, Join, Sorted, StagedRefs;
  }

  lemma PublishStagesNothing(c: Codec, format: Format, m: Manifest, layers: seq<Layer>, refs: seq<string>)
    ensures forall q :: q in PublishRequests(c, format, m, layers, refs) ==> !q.PutStaged? && !q.DeleteTag?
    ensures forall q :: q in PublishRequests(c, format, m, layers, refs) && q.PutRef? ==> q.image.manifest.sha == m.sha && q.name in refs
    ensures DropsLast(PublishRequests(c, format, m, layers, refs))
    ensures forall q :: q in PublishRequests(c, format, m, layers, refs) && q.DropStaged? ==> q.sha == m.sha
  {
    var todo := PublishRequests(c, format, m, layers, refs);
    forall q | q in todo
      ensures !q.PutStaged? && !q.DeleteTag? && (q.PutRef? ==> q.image.manifest.sha == m.sha && q.name in refs) &&
              (q.DropStaged? ==> q.sha == m.sha)
    {
    }
  }

  lemma PublishWritesAll(c: Codec, format: Format, m: Manifest, layers: seq<Layer>, refs: seq<string>)
    ensures var todo := PublishRequests(c, format, m, layers, refs);
            PutCommit(Image(m, layers)) in todo && DropStaged(m.sha) in todo &&
            forall r :: r in refs ==> PutRef(r, Image(m, layers)) in todo
  {
    var image := Image(m, layers);
    var pushes := ManifestPushes(c, format, m, layers);
    var todo := PublishRequests(c, format, m, layers, refs);
    assert todo[|pushes|] == PutCommit(image) && todo[|todo| - 1] == DropStaged(m.sha);
    forall r | r in refs ensures PutRef(r, image) in todo {
      var i :| 0 <= i < |refs| && refs[i] == r;
      assert RefRequests(refs, image)[i] == PutRef(r, image);
      assert todo[|pushes| + 1 + i] == PutRef(r, image);
    }
  }

  lemma PromoteIsRight(c: Codec, format: Format, reg: Registry, kept: map<Sha, set<string>>, sha: Sha, x: Section)
    requires Kept(reg, kept) && TagsOk(reg) && x.next.PromoteEach?
    requires x.todo == PromoteRequests(c, format, reg, sha, true)
    ensures SectionRight(reg, kept, x)
  {
    hide ImageOk, Split, Sorted, PublishRequests, LayersOf, Missing;
    if sha in reg.staged && Missing(format, reg, reg.staged[sha].manifest.files) == [] {
      var m := reg.staged[sha].manifest;
      var layers, refs := LayersOf(format, reg, m.files), Sorted(Names(Split(reg.staged[sha].refs)));
      PublishStagesNothing(c, format, m, layers, refs);
      PublishWritesAll(c, format, m, layers, refs);
      SortedLists(Names(Split(reg.staged[sha].refs)));
      assert forall r :: r in refs <==> r in kept[sha];
    }
  }

  lemma DeletionStagesNothing(reg: Registry, todo: seq<Request>)
    requires exists tags: seq<Tag> :: Enumerates(tags, TagsOf(reg)) && todo == DeleteRequests(tags)
    ensures forall q :: q in todo ==> q.DeleteTag?
  {
    hide TagsOf, Enumerates;
  }

  lemma PutOrStageIsRight(c: Codec, format: Format, reg: Registry, kept: map<Sha, set<string>>, m: Manifest,
                          refs: seq<string>, readable: bool, x: Section)
    requires Kept(reg, kept) && Plain(refs) && x.next.Done?
    requires x.todo == PutOrStageRequests(c, format, reg, m, refs, readable)
    ensures SectionRight(reg, kept, x)
  {
    hide StageRequests, PublishRequests, Kept, Missing, LayersOf;
    StageIsRight(c, reg, kept, m, refs, readable);
    PublishStagesNothing(c, format, m, LayersOf(format, reg, m.files), refs);
  }

  lemma AnnotatedIsKept(s: State)
    requires RefsRight(s)
    ensures Kept(s.w.reg, s.kept)
  {
    hide Split;
  }

  lemma DecideKeepsRefsRight(c: Codec, format: Format, s: State, todo: seq<Request>, next: Decision)
    requires RefsRight(s) && TagsOk(s.w.reg) && s.lock.Some? && s.lock.value.todo == []
    requires Decides(c, format, s.w, s.lock.value.next, todo, next)
    ensures RefsRight(Decided(s, todo, next))
  {
    AnnotatedIsKept(s);
    var reg, x := s.w.reg, s.lock.value;
    hide PutOrStageRequests, PromoteRequests, Annotated, Kept, TagsOk, EntryFor, DeleteRequests;
    match x.next {
      case PutOrStage(m, refs) => PutOrStageIsRight(c, format, reg, s.kept, m, refs, true, x.(todo := todo, next := next));
      case PromoteEach(shas, left) =>
        if shas != [] {
          PromoteIsRight(c, format, reg, s.kept, shas[0], x.(todo := todo, next := next));
        }
      case DeleteAll => DeletionStagesNothing(reg, todo);
      case _ =>
    }
  }

  lemma SwallowKeepsRefsRight(c: Codec, format: Format, f: Faults, s: State, todo: seq<Request>, next: Decision)
    requires RefsRight(s) && s.lock.Some? && s.lock.value.todo == []
    requires Swallows(c, format, f, s.w, s.lock.value.next, todo, next)
    ensures RefsRight(Decided(s, todo, next))
  {
    AnnotatedIsKept(s);
    var reg, x := s.w.reg, s.lock.value;
    hide PutOrStageRequests, Annotated, Kept;
    if x.next.PutOrStage? {
      PutOrStageIsRight(c, format, reg, s.kept, x.next.manifest, x.next.refs, false, x.(todo := todo, next := next));
    }
  }

  // ---------------------------------------------------------------- requests

  lemma PerformKeepsAnnotated(s: State)
    requires Annotated(s.w.reg, s.recorded, s.kept, s.missed) && s.lock.Some? && s.lock.value.todo != []
    requires StagesRight(s.w.reg, s.kept, s.lock.value.todo)
    ensures var s' := Performed(s);
            Annotated(s'.w.reg, s'.recorded, s'.kept, s'.missed)
  {
    hide Split, Names;
    var q := s.lock.value.todo[0];
    if q.PutStaged? {
      StagingKeepsAnnotated(s.w, s.recorded, s.kept, s.missed, q);
    } else {
      StagedAfter(s.w, q);
      hide Perform;
      DroppedStaysAnnotated(s.w.reg, Performed(s).w.reg, s.recorded, s.kept, s.missed);
    }
  }

  lemma DroppedStaysAnnotated(reg: Registry, reg': Registry, recorded: map<Sha, set<string>>, kept: map<Sha, set<string>>,
                              missed: set<Sha>)
    requires Annotated(reg, recorded, kept, missed)
    requires forall sha :: sha in reg'.staged ==> sha in reg.staged && reg'.staged[sha] == reg.staged[sha]
    ensures Annotated(reg', recorded, kept, missed)
  {
    hide Split, Names;
  }

  lemma StagingKeepsAnnotated(w: World, recorded: map<Sha, set<string>>, kept: map<Sha, set<string>>, missed: set<Sha>, q: Request)
    requires Annotated(w.reg, recorded, kept, missed) && q.PutStaged?
    requires Names(Split(q.doc.refs)) == (if q.read then RecordedFor(kept, w.reg, q.doc.manifest.sha) else {}) + Names(q.given)
    ensures Annotated(Perform(w, q).reg, Record(recorded, w.reg, q), Keep(kept, w.reg, q), Miss(missed, w.reg, q))
  {
    hide Split, Names;
  }

  lemma PerformKeepsStagesRight(w: World, kept: map<Sha, set<string>>, todo: seq<Request>)
    requires todo != [] && StagesRight(w.reg, kept, todo)
    ensures StagesRight(Perform(w, todo[0]).reg, Keep(kept, w.reg, todo[0]), todo[1..])
  {
    hide Split;
    var rest := todo[1..];
    forall k | 0 <= k < |rest| && rest[k].PutStaged?
      ensures todo[0].PushBlob? || todo[0].SetPending?
    {
      assert todo[k + 1].PutStaged?;
    }
  }

  lemma PerformKeepsPromotesRight(w: World, kept: map<Sha, set<string>>, todo: seq<Request>, sha: Sha)
    requires |todo| > 1 && PromotesRight(w.reg, kept, todo, sha) && !todo[0].DropStaged?
    ensures PromotesRight(Perform(w, todo[0]).reg, Keep(kept, w.reg, todo[0]), todo[1..], sha)
  {
    var q, rest, reg' := todo[0], todo[1..], Perform(w, todo[0]).reg;
    assert q in todo && todo == [q] + rest;
    forall r | r in kept[sha] && !(r in reg'.refs && reg'.refs[r].manifest.sha == sha)
      ensures exists p :: p in rest && p.PutRef? && p.name == r
    {
      var p :| p in todo && p.PutRef? && p.name == r;
      assert p in rest;
    }
    if sha !in reg'.commits {
      var p :| p in todo && p.PutCommit? && p.image.manifest.sha == sha;
      assert p in rest;
    }
  }

  lemma PerformKeepsSectionRight(w: World, kept: map<Sha, set<string>>, x: Section)
    requires x.todo != [] && SectionRight(w.reg, kept, x)
    ensures SectionRight(Perform(w, x.todo[0]).reg, Keep(kept, w.reg, x.todo[0]), x.(todo := x.todo[1..]))
  {
    PerformKeepsStagesRight(w, kept, x.todo);
    var rest := x.todo[1..];
    if x.next.PromoteEach? {
      RestDropsLast(x.todo);
      hide Perform, Keep, StagesRight, PromotesRight;
      forall sha | DropStaged(sha) in rest
        ensures PromotesRight(Perform(w, x.todo[0]).reg, Keep(kept, w.reg, x.todo[0]), rest, sha)
      {
        PerformKeepsPromotesRight(w, kept, x.todo, sha);
      }
      forall q | q in rest && q.PutRef? ensures DropStaged(q.image.manifest.sha) in rest {
        assert q in x.todo;
      }
    } else {
      hide Perform, Keep, StagesRight;
    }
  }

  /** Past the first request, a drop among the rest is still the last. */
  lemma RestDropsLast(todo: seq<Request>)
    requires todo != [] && DropsLast(todo)
    ensures DropsLast(todo[1..])
    ensures todo[1..] != [] ==> !todo[0].DropStaged?
    ensures forall q :: q in todo[1..] ==> q in todo
    ensures forall q :: q in todo && q != todo[0] ==> q in todo[1..]
    ensures todo[0].DropStaged? ==> todo[1..] == []
  {
    assert todo == [todo[0]] + todo[1..];
  }

  /** Only the last request of a promotion can be skipped, and only DeleteRepo deletes tags. */
  lemma SkipKeepsSectionRight(reg: Registry, kept: map<Sha, set<string>>, x: Section)
    requires x.todo != [] && SectionRight(reg, kept, x)
    requires x.todo[0].DropStaged? || (x.todo[0].DeleteTag? && !x.next.PromoteEach?)
    ensures SectionRight(reg, kept, x.(todo := x.todo[1..]))
  {
    var rest := x.todo[1..];
    assert forall k :: 0 <= k < |x.todo| ==> !x.todo[k].PutStaged?;
    assert forall k :: 0 <= k < |rest| ==> rest[k] == x.todo[k + 1];
    if x.next.PromoteEach? {
      RestDropsLast(x.todo);
      assert rest == [];
    }
  }

  // ---------------------------------------------------------------- runs

  lemma LockKeepsRefsRight(format: Format, f: Faults, s: State, s': State)
    requires RefsRight(s) && PlainCalls(s) && (LockStep(format, s, s') || UnlockStep(s, s') || FailInsideStep(f, s, s'))
    ensures RefsRight(s')
  {
    hide Annotated, MayFail;
  }

  lemma QuietKeepsRefsRight(s: State, s': State)
    requires RefsRight(s) && Quiet(s, s')
    ensures RefsRight(s')
  {
    hide Split, Names;
    if s.lock.Some? {
      var x := s.lock.value;
      forall sha | PromotesRight(s.w.reg, s.kept, x.todo, sha) ensures PromotesRight(s'.w.reg, s'.kept, x.todo, sha) {
      }
      assert StagesRight(s'.w.reg, s'.kept, x.todo) by { hide PromotesRight; }
      hide PromotesRight, StagesRight;
    }
  }

  lemma NextKeepsRefsRight(c: Codec, format: Format, f: Faults, s: State, s': State)
    requires RefsRight(s) && Owned(s) && PlainCalls(s) && TagsOk(s.w.reg) && Next(c, format, f, s, s')
    ensures RefsRight(s')
  {
    hide Annotated, SectionRight, PlainCalls, TagsOk, Quiet, OutsideStep, FaultOutsideStep, LockStep, UnlockStep, FailInsideStep,
         Decides, Swallows, MayFail;
    if OutsideStep(c, format, s, s') || FaultOutsideStep(format, s, s') {
      OutsideIsQuiet(c, format, s, s');
      QuietKeepsRefsRight(s, s');
    } else if DecideStep(c, format, s, s') {
      var todo, next :| Decides(c, format, s.w, s.lock.value.next, todo, next) && s' == Decided(s, todo, next);
      DecideKeepsRefsRight(c, format, s, todo, next);
    } else if SwallowStep(c, format, f, s, s') {
      var todo, next :| Swallows(c, format, f, s.w, s.lock.value.next, todo, next) && s' == Decided(s, todo, next);
      SwallowKeepsRefsRight(c, format, f, s, todo, next);
    } else if PerformStep(s, s') {
      RightStages(s.w.reg, s.kept, s.lock.value);
      PerformKeepsAnnotated(s);
      PerformKeepsSectionRight(s.w, s.kept, s.lock.value);
    } else if SkipStep(f, s, s') {
      SkipKeepsSectionRight(s.w.reg, s.kept, s.lock.value);
    } else {
      LockKeepsRefsRight(format, f, s, s');
    }
  }

  lemma RightStages(reg: Registry, kept: map<Sha, set<string>>, x: Section)
    requires SectionRight(reg, kept, x)
    ensures StagesRight(reg, kept, x.todo)
  {
  }

  lemma {:induction false} RunKeepsRefsRight(c: Codec, format: Format, f: Faults, trace: seq<State>, i: nat)
    requires Run(c, format, f, trace) && i < |trace|
    requires forall j :: 0 <= j < i ==> PlainCalls(trace[j])
    ensures RefsRight(trace[i])
  {
    hide Next;
    if i > 0 {
      hide RefsRight, Sound, PlainCalls, Owned;
      RunKeepsRefsRight(c, format, f, trace, i - 1);
      RunIsOwned(c, format, f, trace, i - 1);
      RunIsSound(c, format, f, trace, i - 1);
      SoundTagsOk(c, format, trace[i - 1]);
      NextKeepsRefsRight(c, format, f, trace[i - 1], trace[i]);
    }
  }

  /** Without failing reads of staged tags, no staging misses anything. */
  ghost predicate NoneMissed(s: State) {
    s.missed == {} && (s.lock.Some? ==> forall q :: q in s.lock.value.todo && q.PutStaged? ==> q.read)
  }

  lemma PutOrStageReads(c: Codec, format: Format, reg: Registry, m: Manifest, refs: seq<string>)
    ensures forall q :: q in PutOrStageRequests(c, format, reg, m, refs, true) && q.PutStaged? ==> q.read
  {
    hide PublishRequests, LayersOf, Missing, StagedRefs, Join;
    PublishStagesNothing(c, format, m, LayersOf(format, reg, m.files), refs);
  }

  lemma DecideKeepsNoneMissed(c: Codec, format: Format, s: State, todo: seq<Request>, next: Decision)
    requires NoneMissed(s) && s.lock.Some? && Decides(c, format, s.w, s.lock.value.next, todo, next)
    ensures NoneMissed(Decided(s, todo, next))
  {
    var reg, x := s.w.reg, s.lock.value;
    hide PutOrStageRequests, EntryFor, DeleteRequests, PublishRequests, LayersOf, Missing, Sorted, Split, Names;
    match x.next {
      case PutOrStage(m, refs) => PutOrStageReads(c, format, reg, m, refs);
      case PromoteEach(shas, left) =>
        if shas != [] && shas[0] in reg.staged {
          var m := reg.staged[shas[0]].manifest;
          PublishStagesNothing(c, format, m, LayersOf(format, reg, m.files), Sorted(Names(Split(reg.staged[shas[0]].refs))));
        }
      case DeleteAll => DeletionStagesNothing(reg, todo);
      case _ =>
    }
  }

  lemma NextKeepsNoneMissed(c: Codec, format: Format, f: Faults, s: State, s': State)
    requires NoneMissed(s) && Next(c, format, f, s, s') && !f.unread
    ensures NoneMissed(s')
  {
    hide Quiet, OutsideStep, FaultOutsideStep, Decides, Perform, MayFail, PutOrStageRequests, Record, Keep;
    if OutsideStep(c, format, s, s') || FaultOutsideStep(format, s, s') {
      OutsideIsQuiet(c, format, s, s');
      hide *;
      QuietMisses(s, s');
    } else if DecideStep(c, format, s, s') {
      var todo, next :| Decides(c, format, s.w, s.lock.value.next, todo, next) && s' == Decided(s, todo, next);
      DecideKeepsNoneMissed(c, format, s, todo, next);
    } else if PerformStep(s, s') {
      assert s.lock.value.todo[0] in s.lock.value.todo;
    }
  }

  lemma QuietMisses(s: State, s': State)
    requires Quiet(s, s') && NoneMissed(s)
    ensures NoneMissed(s')
  {
  }

  lemma {:induction false} RunMissesNone(c: Codec, format: Format, f: Faults, trace: seq<State>, i: nat)
    requires Run(c, format, f, trace) && i < |trace| && !f.unread
    ensures NoneMissed(trace[i])
  {
    hide Next;
    if i > 0 {
      hide NoneMissed;
      RunMissesNone(c, format, f, trace, i - 1);
      NextKeepsNoneMissed(c, format, f, trace[i - 1], trace[i]);
    }
  }

  // ---------------------------------------------------------------- main results

  /** What a staged tag's annotation says, whatever fails: the refs its stagings were given since
      one of them last failed to read the tag. They are all the refs recorded for it exactly when
      the lost ones have been given again, and always if none failed since the tag appeared. */
  lemma AnnotationIsTheRecord(c: Codec, format: Format, f: Faults, trace: seq<State>, i: nat, sha: Sha)
    requires Run(c, format, f, trace) && i < |trace| && (forall j :: 0 <= j < i ==> PlainCalls(trace[j]))
    requires sha in trace[i].w.reg.staged
    ensures var s := trace[i];
            sha in s.recorded && sha in s.kept && Names(Split(s.w.reg.staged[sha].refs)) == s.kept[sha] <= s.recorded[sha] &&
            (Names(Split(s.w.reg.staged[sha].refs)) == s.recorded[sha] <==> s.kept[sha] == s.recorded[sha]) &&
            (sha !in s.missed ==> s.kept[sha] == s.recorded[sha])
    ensures !f.unread ==> trace[i].missed == {}
  {
    RunKeepsRefsRight(c, format, f, trace, i);
    if !f.unread { RunMissesNone(c, format, f, trace, i); }
    hide Run, Split;
  }

  /** When a promotion drops a staged tag, failures elsewhere included, the commit has its tag and
      every kept ref points at it; that is every recorded ref unless a staging missed some. */
  lemma PromotionTagsEveryRecordedRef(c: Codec, format: Format, f: Faults, trace: seq<State>, i: nat, sha: Sha, r: string)
    requires Run(c, format, f, trace) && i + 1 < |trace| && (forall j :: 0 <= j < i ==> PlainCalls(trace[j]))
    requires PerformStep(trace[i], trace[i + 1])
    requires trace[i].lock.value.todo[0] == DropStaged(sha) && trace[i].lock.value.next.PromoteEach?
    ensures sha in trace[i].w.reg.staged && sha in trace[i].kept && sha in trace[i].recorded
    ensures sha !in trace[i].missed ==> trace[i].kept[sha] == trace[i].recorded[sha]
    ensures sha !in trace[i + 1].w.reg.staged && sha in trace[i + 1].w.reg.commits
    ensures r in trace[i].kept[sha] ==>
              r in trace[i + 1].w.reg.refs && trace[i + 1].w.reg.refs[r].manifest.sha == sha
  {
    RunKeepsRefsRight(c, format, f, trace, i);
    hide Run, StagesRight, Split;
    var x := trace[i].lock.value;
    assert DropStaged(sha) in x.todo && |x.todo| == 1;
    assert PromotesRight(trace[i].w.reg, trace[i].kept, x.todo, sha);
    assert x.todo == [DropStaged(sha)];
  }

  /** A promotion writes no other ref. */
  lemma PromotionTagsOnlyRecordedRefs(c: Codec, format: Format, f: Faults, trace: seq<State>, i: nat)
    requires Run(c, format, f, trace) && i + 1 < |trace| && (forall j :: 0 <= j < i ==> PlainCalls(trace[j]))
    requires PerformStep(trace[i], trace[i + 1])
    requires trace[i].lock.value.todo[0].PutRef? && trace[i].lock.value.next.PromoteEach?
    ensures var q := trace[i].lock.value.todo[0];
            var sha := q.image.manifest.sha;
            sha in trace[i].kept && sha in trace[i].recorded && q.name in trace[i].kept[sha] &&
            trace[i].kept[sha] <= trace[i].recorded[sha]
  {
    RunKeepsRefsRight(c, format, f, trace, i);
    hide Run, StagesRight, Split;
    var x := trace[i].lock.value;
    var q := x.todo[0];
    assert q in x.todo;
    assert PromotesRight(trace[i].w.reg, trace[i].kept, x.todo, q.image.manifest.sha);
  }

  // ---------------------------------------------------------------- what publishing does

  /** Publishing sets the commit tag and the given refs, drops the staged tag and adds blobs. */
  lemma PublishEffect(c: Codec, format: Format, w: World, m: Manifest, layers: seq<Layer>, refs: seq<string>)
    ensures var w' := PerformAll(w, PublishRequests(c, format, m, layers, refs));
            var image := Image(m, layers);
            w'.reg.commits == w.reg.commits[m.sha := image] && w'.reg.staged == w.reg.staged - {m.sha} &&
            w'.reg.index == w.reg.index && w.reg.blobs <= w'.reg.blobs && w'.pending == w.pending &&
            w'.reg.refs == w.reg.refs + (map r | r in refs :: image) &&
            Documents(c, format, m, layers) <= w'.reg.blobs
  {
    var image := Image(m, layers);
    var pushes := ManifestPushes(c, format, m, layers);
    var w1 := PerformAll(w, pushes);
    PushesOnlyPush(w, pushes);
    DocumentsPushed(c, format, w, m, layers);
    var w2 := Perform(w1, PutCommit(image));
    PerformAllAppend(w, pushes, [PutCommit(image)]);
    PerformOne(w1, [PutCommit(image)]);
    PerformAllAppend(w, pushes + [PutCommit(image)], RefRequests(refs, image));
    RefsOnlyTag(w2, refs, image);
    PerformAllAppend(w, pushes + [PutCommit(image)] + RefRequests(refs, image), [DropStaged(m.sha)]);
    PerformOne(PerformAll(w2, RefRequests(refs, image)), [DropStaged(m.sha)]);
    hide PerformAll, RefRequests, ManifestPushes, Documents;
  }

  /** The registry blobs a published commit is made of besides its file layers: the manifest's own
      layer or config and, in tar-layers format, the image config over all layers. */
  function Documents(c: Codec, format: Format, m: Manifest, layers: seq<Layer>): set<Digest> {
    match format
    case ModelPack => {Sha256(c.manifest(m))} + if layers == [] then {Sha256(EMPTY_JSON)} else {}
    case TarLayers =>
      var own := Sha256(TarLayer(c, ".shpiel/manifest.json", c.manifest(m)));
      {own, Sha256(c.config(seq(|layers|, i requires 0 <= i < |layers| => layers[i].entry.layer) + [own]))}
  }

  lemma DocumentsPushed(c: Codec, format: Format, w: World, m: Manifest, layers: seq<Layer>)
    ensures Documents(c, format, m, layers) <= PerformAll(w, ManifestPushes(c, format, m, layers)).reg.blobs
  {
    var pushes := ManifestPushes(c, format, m, layers);
    if |pushes| == 1 {
      PerformOne(w, pushes);
    } else {
      PerformTwo(w, pushes);
    }
    hide PerformAll, TarLayer;
  }

  lemma {:induction false} PushesOnlyPush(w: World, qs: seq<Request>)
    requires forall q :: q in qs ==> q.PushBlob?
    ensures var w' := PerformAll(w, qs);
            w' == w.(reg := w.reg.(blobs := w'.reg.blobs)) && w.reg.blobs <= w'.reg.blobs
    decreases |qs|
  {
    if qs != [] {
      assert qs[0].PushBlob?;
      PushesOnlyPush(Perform(w, qs[0]), qs[1..]);
    }
  }

  lemma {:induction false} RefsOnlyTag(w: World, refs: seq<string>, image: Image)
    ensures PerformAll(w, RefRequests(refs, image)) == w.(reg := w.reg.(refs := w.reg.refs + map r | r in refs :: image))
    decreases |refs|
  {
    if refs == [] {
      assert w.reg.refs + (map r | r in refs :: image) == w.reg.refs;
    } else {
      var w' := Perform(w, PutRef(refs[0], image));
      assert RefRequests(refs, image)[1..] == RefRequests(refs[1..], image);
      RefsOnlyTag(w', refs[1..], image);
      assert w'.reg.refs + (map r | r in refs[1..] :: image) == w.reg.refs + map r | r in refs :: image;
    }
  }

  /** PutManifest publishes a commit exactly when all its files are located; otherwise it stages it
      and leaves every published commit and ref alone. */
  lemma PublishedExactlyWhen(c: Codec, format: Format, w: World, m: Manifest, refs: seq<string>, readable: bool)
    ensures var w' := PerformAll(w, PutOrStageRequests(c, format, w.reg, m, refs, readable));
            w'.reg.index == w.reg.index && w.reg.blobs <= w'.reg.blobs &&
            if forall i :: 0 <= i < |m.files| ==> Locate(format, w.reg, m.files[i]).Some? then
              m.sha !in w'.reg.staged && m.sha in w'.reg.commits && w'.reg.commits[m.sha].manifest == m
            else
              w'.reg.commits == w.reg.commits && w'.reg.refs == w.reg.refs && w'.pending &&
              m.sha in w'.reg.staged && w'.reg.staged[m.sha].manifest == m
  {
    NothingMissing(format, w.reg, m.files);
    PublishEffect(c, format, w, m, LayersOf(format, w.reg, m.files), refs);
    StageEffect(c, w, m, refs, readable);
    hide PublishRequests, StageRequests, PerformAll, LayersOf, Missing, Locate, StagedRefs, Join;
  }

  /** A direct publish points exactly the refs it is given at the commit, whatever its stagings had
      recorded: any other ref points there only if it did before. */
  lemma DirectPublishTagsExactly(c: Codec, format: Format, w: World, m: Manifest, refs: seq<string>, readable: bool, r: string)
    requires Missing(format, w.reg, m.files) == []
    ensures var w' := PerformAll(w, PutOrStageRequests(c, format, w.reg, m, refs, readable));
            var image := Image(m, LayersOf(format, w.reg, m.files));
            m.sha !in w'.reg.staged && m.sha in w'.reg.commits &&
            ((r in w'.reg.refs && w'.reg.refs[r] == image) <==> r in refs || (r in w.reg.refs && w.reg.refs[r] == image)) &&
            (r !in refs ==> (r in w'.reg.refs <==> r in w.reg.refs) && (r in w.reg.refs ==> w'.reg.refs[r] == w.reg.refs[r]))
  {
    hide PublishRequests, PerformAll, Split, Names, LayersOf, Missing;
    PublishEffect(c, format, w, m, LayersOf(format, w.reg, m.files), refs);
  }

  // ---------------------------------------------------------------- what a promotion does

  ghost predicate StagedUnderOwnName(reg: Registry) {
    forall sha :: sha in reg.staged ==> reg.staged[sha].manifest.sha == sha
  }

  /** One staged commit's turn: it is published and dropped if it can be read and all its files are
      located, and left as it is otherwise; other commits stay as they are. */
  lemma OneTurn(c: Codec, format: Format, w: World, sha: Sha, readable: bool)
    requires StagedUnderOwnName(w.reg)
    ensures var w' := PerformAll(w, PromoteRequests(c, format, w.reg, sha, readable));
            var promotes := sha in w.reg.staged && readable && Missing(format, w.reg, w.reg.staged[sha].manifest.files) == [];
            w'.pending == w.pending && w'.reg.index == w.reg.index && w.reg.blobs <= w'.reg.blobs &&
            w'.reg.staged == (if promotes then w.reg.staged - {sha} else w.reg.staged) &&
            (LeavesStaged(format, w.reg, sha, readable) <==> readable && sha in w'.reg.staged) &&
            (promotes ==> sha in w'.reg.commits && w'.reg.commits[sha].manifest == w.reg.staged[sha].manifest) &&
            (forall other :: other != sha || !promotes ==>
               (other in w'.reg.commits <==> other in w.reg.commits) &&
               (other in w.reg.commits ==> w'.reg.commits[other] == w.reg.commits[other]))
  {
    hide PerformAll, PublishRequests, LayersOf, Missing, Sorted, Split, Names;
    PerformNone(w);
    if sha in w.reg.staged {
      var m := w.reg.staged[sha].manifest;
      PublishEffect(c, format, w, m, LayersOf(format, w.reg, m.files), Sorted(Names(Split(w.reg.staged[sha].refs))));
    }
  }

  /** What is located stays located while blobs and index are not lost. */
  lemma StaysLocated(format: Format, reg: Registry, reg': Registry, files: seq<File>)
    requires reg'.index == reg.index && reg.blobs <= reg'.blobs && Missing(format, reg, files) == []
    ensures Missing(format, reg', files) == []
  {
    NothingMissing(format, reg, files);
    NothingMissing(format, reg', files);
    hide Missing;
    forall i | 0 <= i < |files| ensures Locate(format, reg', files[i]).Some? {
      assert Locate(format, reg, files[i]).Some?;
    }
  }

  /** What a promotion leaves of one commit. */
  ghost predicate Promotes(format: Format, reg: Registry, reg': Registry, shas: seq<Sha>, readable: Sha -> bool, sha: Sha) {
    && (sha in reg'.staged ==> sha in reg.staged && reg'.staged[sha] == reg.staged[sha])
    && (sha in reg.staged && sha !in reg'.staged ==>
          sha in shas && readable(sha) && sha in reg'.commits && reg'.commits[sha].manifest == reg.staged[sha].manifest)
    && (sha in reg.staged && sha in shas && readable(sha) && Missing(format, reg, reg.staged[sha].manifest.files) == [] ==>
          sha !in reg'.staged)
    && (sha !in shas || sha !in reg.staged || sha in reg'.staged ==>
          (sha in reg'.commits <==> sha in reg.commits) && (sha in reg.commits ==> reg'.commits[sha] == reg.commits[sha]))
  }

  lemma {:induction false} PromotedAt(c: Codec, format: Format, w: World, shas: seq<Sha>, left: bool, readable: Sha -> bool, sha: Sha)
    requires StagedUnderOwnName(w.reg) && forall i, j :: 0 <= i < j < |shas| ==> shas[i] != shas[j]
    ensures Promotes(format, w.reg, Promoted(c, format, w, shas, left, readable).reg, shas, readable, sha)
    decreases |shas|
  {
    hide PromoteRequests, PerformAll, Missing, LeavesStaged;
    if shas != [] {
      var first, rest := shas[0], shas[1..];
      var w1 := PerformAll(w, PromoteRequests(c, format, w.reg, first, readable(first)));
      OneTurn(c, format, w, first, readable(first));
      PromotedAt(c, format, w1, rest, left || LeavesStaged(format, w.reg, first, readable(first)), readable, sha);
      assert shas == [first] + rest && first !in rest;
      if sha in w.reg.staged && Missing(format, w.reg, w.reg.staged[sha].manifest.files) == [] {
        StaysLocated(format, w.reg, w1.reg, w.reg.staged[sha].manifest.files);
      }
      hide Promoted;
    }
  }

  /** The flag stays set only if a commit that can be read was left. */
  lemma {:induction false} PromotedPending(c: Codec, format: Format, w: World, shas: seq<Sha>, left: bool, readable: Sha -> bool)
    requires StagedUnderOwnName(w.reg) && forall i, j :: 0 <= i < j < |shas| ==> shas[i] != shas[j]
    ensures var w' := Promoted(c, format, w, shas, left, readable);
            w'.pending == (w.pending && (left || exists sha :: sha in shas && readable(sha) && sha in w'.reg.staged))
    decreases |shas|
  {
    hide PromoteRequests, PerformAll, Missing, LeavesStaged;
    if shas != [] {
      var first, rest := shas[0], shas[1..];
      var left1 := left || LeavesStaged(format, w.reg, first, readable(first));
      var w1 := PerformAll(w, PromoteRequests(c, format, w.reg, first, readable(first)));
      var w' := Promoted(c, format, w1, rest, left1, readable);
      OneTurn(c, format, w, first, readable(first));
      PromotedPending(c, format, w1, rest, left1, readable);
      PromotedAt(c, format, w1, rest, left1, readable, first);
      assert shas == [first] + rest && first !in rest;
      assert w' == Promoted(c, format, w, shas, left, readable);
      hide Promoted;
      assert LeavesStaged(format, w.reg, first, readable(first)) <==> readable(first) && first in w'.reg.staged;
    }
  }

  /** promoteStaged over all staged commits, in any order: of those it can read, each that is
      complete is published under its own id and no longer staged, one that is not published stays
      staged as it was, no other commit changes, and the flag is cleared unless one was left. */
  lemma PromotedMeans(c: Codec, format: Format, w: World, shas: seq<Sha>, readable: Sha -> bool)
    requires StagedUnderOwnName(w.reg) && Enumerates(shas, w.reg.staged.Keys)
    ensures var w' := Promoted(c, format, w, shas, false, readable);
            (forall sha :: Promotes(format, w.reg, w'.reg, shas, readable, sha)) &&
            w'.pending == (w.pending && exists sha :: sha in w'.reg.staged && readable(sha))
  {
    hide Promotes, Promoted, StagedUnderOwnName;
    forall sha ensures Promotes(format, w.reg, Promoted(c, format, w, shas, false, readable).reg, shas, readable, sha) {
      PromotedAt(c, format, w, shas, false, readable, sha);
    }
    PromotedPending(c, format, w, shas, false, readable);
    var w' := Promoted(c, format, w, shas, false, readable);
    forall sha | sha in w'.reg.staged ensures sha in shas {
      StillStaged(format, w.reg, w'.reg, shas, readable, sha);
    }
  }

  lemma StillStaged(format: Format, reg: Registry, reg': Registry, shas: seq<Sha>, readable: Sha -> bool, sha: Sha)
    requires Promotes(format, reg, reg', shas, readable, sha) && sha in reg'.staged
    ensures sha in reg.staged
  {
    hide Missing;
  }

  // ---------------------------------------------------------------- two ways to lose a recorded ref

  /** A commit one of whose files has no digest yet. */
  function Unkeyed(sha: Sha, p: string): Manifest { Manifest(sha, [File(p, None)]) }

  lemma UnkeyedIsMissing(format: Format, reg: Registry, sha: Sha, p: string)
    ensures Missing(format, reg, Unkeyed(sha, p).files) != []
  {
    NothingMissing(format, reg, Unkeyed(sha, p).files);
    assert Locate(format, reg, Unkeyed(sha, p).files[0]).None?;
  }

  /** Staging the first commit of an empty repository records its refs. */
  lemma FirstStaging(c: Codec, format: Format, f: Faults, sha: Sha, p: string, ref: string) returns (trace: seq<State>)
    requires ',' !in ref && ref != ""
    ensures Run(c, format, f, trace) && trace != []
    ensures var s := trace[|trace| - 1];
            s.lock.None? && s.threads == map[0 := Thread(PutManifestCall(Unkeyed(sha, p), [ref]), Returned(true))] &&
            s.w.reg == EMPTY.w.reg.(staged := map[sha := Staged(Unkeyed(sha, p), ref)], blobs := s.w.reg.blobs) &&
            Names(Split(ref)) == {ref} && s.recorded == map[sha := {ref}]
  {
    var m := Unkeyed(sha, p);
    UnkeyedIsMissing(format, EMPTY.w.reg, sha, p);
    assert Run(c, format, f, [EMPTY]);
    hide Missing, StagedRefs, Join, StageRequests, PublishRequests, LayersOf, Run, PerformAll, RecordAll, Split;
    trace := ManifestRuns(c, format, f, [EMPTY], 0, m, [ref]);
    StageEffect(c, EMPTY.w, m, [ref], true);
    StageRecords(c, EMPTY.w, map[], m, [ref], true);
    PlainRefs(EMPTY.w.reg, m, ref, true);
    NamesOfOne(ref);
    assert RecordedFor(map[], EMPTY.w.reg, sha) + {ref} == {ref};
  }

  lemma PlainRefs(reg: Registry, m: Manifest, ref: string, readable: bool)
    requires ',' !in ref && ref != "" && (readable ==> m.sha !in reg.staged)
    ensures Join(StagedRefs(reg, m, [ref], readable)) == ref && Names(Split(ref)) == {ref}
  {
    SplitPlain(ref);
  }

  /** What a staging adds to the record. */
  lemma StageRecords(c: Codec, w: World, recorded: map<Sha, set<string>>, m: Manifest, refs: seq<string>, readable: bool)
    ensures RecordAll(recorded, w, StageRequests(c, w.reg, m, refs, readable)) ==
            recorded[m.sha := RecordedFor(recorded, w.reg, m.sha) + Names(refs)]
  {
    var todo := StageRequests(c, w.reg, m, refs, readable);
    hide Names, Join, StagedRefs;
    var w1 := Perform(w, todo[0]);
    var w2 := Perform(w1, todo[1]);
    var w3 := Perform(w2, todo[2]);
    assert todo[1..][0] == todo[1] && todo[1..][1..][0] == todo[2] && todo[1..][1..][1..] == [todo[3]];
    assert RecordAll(recorded, w, todo) == RecordAll(recorded, w1, todo[1..]);
    assert RecordAll(recorded, w1, todo[1..]) == RecordAll(recorded, w2, todo[1..][1..]);
    assert RecordAll(recorded, w2, todo[1..][1..]) == RecordAll(Record(recorded, w2.reg, todo[2]), w3, [todo[3]]);
    assert [todo[3]][1..] == [];
    assert todo[2].PutStaged? && todo[2].doc.manifest == m && todo[2].given == refs;
    assert RecordAll(Record(recorded, w2.reg, todo[2]), w3, [todo[3]]) == Record(recorded, w2.reg, todo[2]);
    assert RecordedFor(recorded, w2.reg, m.sha) == RecordedFor(recorded, w.reg, m.sha);
  }

  /** A staging whose read of its staged tag fails loses the refs recorded before, although every
      call answers yes: the annotation has the second ref alone, the record both. */
  lemma UnreadStagingLosesRefs(c: Codec, format: Format, f: Faults, sha: Sha, p: string, first: string, second: string)
    returns (trace: seq<State>)
    requires f.unread && ',' !in first && ',' !in second && first != "" && second != "" && first != second
    ensures Run(c, format, f, trace) && trace != []
    ensures var s := trace[|trace| - 1];
            s.lock.None? && PlainCalls(s) && (forall t :: t in s.threads ==> s.threads[t].pc == Returned(true)) &&
            sha in s.w.reg.staged && Names(Split(s.w.reg.staged[sha].refs)) == {second} && s.recorded == map[sha := {first, second}]
  {
    var m := Unkeyed(sha, p);
    trace := FirstStaging(c, format, f, sha, p, first);
    var s := trace[|trace| - 1];
    UnkeyedIsMissing(format, s.w.reg, sha, p);
    StageEffect(c, s.w, m, [second], false);
    StageRecords(c, s.w, s.recorded, m, [second], false);
    PlainRefs(s.w.reg, m, second, false);
    NamesOfOne(second);
    hide Run, Missing, StagedRefs, Join, StageRequests, PublishRequests, LayersOf, PerformAll, RecordAll, Split, Names;
    trace := ManifestEnters(c, format, f, trace, 1, m, [second]);
    var s1 := trace[|trace| - 1];
    var todo := StageRequests(c, s.w.reg, m, [second], false);
    assert Swallows(c, format, f, s1.w, s1.lock.value.next, todo, Done);
    assert SwallowStep(c, format, f, s1, Decided(s1, todo, Done));
    trace := RunGrows(c, format, f, trace, Decided(s1, todo, Done));
    trace := SectionEnds(c, format, f, trace);
    assert {first} + {second} == {first, second};
  }

  lemma NamesOfOne(ref: string)
    requires ref != ""
    ensures Names([ref]) == {ref}
  {
  }

  /** Every staged tag lists every ref recorded for it. */
  ghost predicate NothingLost(s: State) {
    forall sha :: sha in s.w.reg.staged ==> sha in s.recorded && Names(Split(s.w.reg.staged[sha].refs)) == s.recorded[sha]
  }

  /** Where no caller names a ref with a comma, every staged tag in every run lists every ref asked
      for since it appeared if and only if no staging fails to read its staged tag. */
  lemma NothingLostExactlyWhen(c: Codec, format: Format, f: Faults)
    ensures (forall trace: seq<State>, i ::
               Run(c, format, f, trace) && 0 <= i < |trace| && PlainCalls(trace[i]) ==> NothingLost(trace[i])) <==>
            !f.unread
  {
    hide Run, PlainCalls, Split, Names;
    if f.unread {
      var trace := UnreadStagingLosesRefs(c, format, f, "", "", "main", "v1");
      assert !NothingLost(trace[|trace| - 1]);
    } else {
      forall trace: seq<State>, i | Run(c, format, f, trace) && 0 <= i < |trace| && PlainCalls(trace[i]) ensures NothingLost(trace[i]) {
        forall j | 0 <= j < i ensures PlainCalls(trace[j]) {
          PlainBefore(c, format, f, trace, j, i);
        }
        forall sha | sha in trace[i].w.reg.staged
          ensures sha in trace[i].recorded && Names(Split(trace[i].w.reg.staged[sha].refs)) == trace[i].recorded[sha]
        {
          AnnotationIsTheRecord(c, format, f, trace, i, sha);
        }
      }
    }
  }

  /** Calls stay what they are. */
  lemma {:induction false} PlainBefore(c: Codec, format: Format, f: Faults, trace: seq<State>, j: nat, i: nat)
    requires Run(c, format, f, trace) && j <= i < |trace| && PlainCalls(trace[i])
    ensures PlainCalls(trace[j])
    decreases i - j
  {
    if j < i {
      assert Next(c, format, f, trace[i - 1], trace[i]);
      CallsStay(c, format, f, trace[i - 1], trace[i]);
      hide Run;
      PlainBefore(c, format, f, trace, j, i - 1);
    }
  }

  /** No call goes away or changes. */
  ghost predicate CallsKept(s: State, s': State) {
    forall t :: t in s.threads ==> t in s'.threads && s'.threads[t].call == s.threads[t].call
  }

  lemma CallsStay(c: Codec, format: Format, f: Faults, s: State, s': State)
    requires Next(c, format, f, s, s') && PlainCalls(s')
    ensures PlainCalls(s)
  {
    NextKeepsCalls(c, format, f, s, s');
    hide Next, Plain;
    forall t | t in s.threads && s.threads[t].call.PutManifestCall? ensures Plain(s.threads[t].call.refs) {
      assert s'.threads[t].call == s.threads[t].call;
    }
  }

  lemma NextKeepsCalls(c: Codec, format: Format, f: Faults, s: State, s': State)
    requires Next(c, format, f, s, s')
    ensures CallsKept(s, s')
  {
    hide OutsideStep, FaultOutsideStep, LockStep, UnlockStep, FailInsideStep, Decides, Swallows, Perform, MayFail, Record, Keep, Miss;
    if OutsideStep(c, format, s, s') || FaultOutsideStep(format, s, s') {
      OutsideIsOne(c, format, s, s');
      if s'.threads != s.threads {
        var t :| OneOutside(s, s', t);
      }
    } else if LockStep(format, s, s') || UnlockStep(s, s') || FailInsideStep(f, s, s') {
      LockKeepsCalls(format, f, s, s');
    }
  }

  lemma LockKeepsCalls(format: Format, f: Faults, s: State, s': State)
    requires LockStep(format, s, s') || UnlockStep(s, s') || FailInsideStep(f, s, s')
    ensures CallsKept(s, s')
  {
    hide MayFail;
  }

  /** A run without failures in which recorded refs are lost: a commit is staged under one ref
      before its file has a digest, the content arrives, and the commit is put again with the
      digest and another ref, which publishes it directly. */
  lemma RekeyedCommitLosesRefs(c: Codec, sha: Sha, p: string, data: Bytes, first: string, second: string)
    returns (trace: seq<State>, j: nat)
    requires ',' !in first && first != "" && first != second
    ensures Run(c, TarLayers, NO_FAULTS, trace) && j < |trace|
    ensures sha in trace[j].w.reg.staged && first in Names(Split(trace[j].w.reg.staged[sha].refs))
    ensures var s := trace[|trace| - 1];
            s.lock.None? && (forall t :: t in s.threads ==> s.threads[t].pc == Returned(true)) &&
            sha !in s.w.reg.staged && sha in s.w.reg.commits && s.w.reg.refs.Keys == {second}
  {
    hide Run, PerformAll, EntryFor, Split, Names, RecordAll;
    trace := FirstStaging(c, TarLayers, NO_FAULTS, sha, p, first);
    j := |trace| - 1;
    trace := ContentArrives(c, trace, sha, p, data);
    trace := RekeyedPut(c, trace, sha, p, data, second);
  }

  /** The content of the file arrives while the commit stays staged. */
  lemma ContentArrives(c: Codec, trace: seq<State>, sha: Sha, p: string, data: Bytes) returns (trace': seq<State>)
    requires Run(c, TarLayers, NO_FAULTS, trace)
    requires var s := trace[|trace| - 1];
             s.lock.None? && s.threads.Keys == {0} && s.w.reg.index.None? && s.w.reg.staged.Keys == {sha} &&
             s.w.reg.staged[sha].manifest == Unkeyed(sha, p)
    ensures Run(c, TarLayers, NO_FAULTS, trace') && trace <= trace' && trace' != []
    ensures var s, s' := trace[|trace| - 1], trace'[|trace'| - 1];
            s'.lock.None? && s'.threads == s.threads[1 := Thread(PutBlobCall(Sha256(data), data, |data|), Returned(true))] &&
            s'.w.reg == s.w.reg.(index := s'.w.reg.index, blobs := s'.w.reg.blobs) && Sha256(data) in IndexOf(s'.w.reg)
  {
    hide Run, EntryFor;
    trace' := BlobIndexed(c, NO_FAULTS, trace, 1, data);
    var s := trace'[|trace'| - 1];
    UnkeyedIsMissing(TarLayers, s.w.reg, sha, p);
    hide Missing;
    trace' := BlobLeaves(c, NO_FAULTS, trace', sha);
  }

  /** The commit is put again with the file's digest, and published. */
  lemma RekeyedPut(c: Codec, trace: seq<State>, sha: Sha, p: string, data: Bytes, second: string) returns (trace': seq<State>)
    requires Run(c, TarLayers, NO_FAULTS, trace)
    requires var s := trace[|trace| - 1];
             s.lock.None? && 2 !in s.threads && Sha256(data) in IndexOf(s.w.reg) && s.w.reg.refs == map[]
    ensures Run(c, TarLayers, NO_FAULTS, trace') && trace <= trace' && trace' != []
    ensures var s, s' := trace[|trace| - 1], trace'[|trace'| - 1];
            s'.lock.None? && s'.threads == s.threads[2 := Thread(PutManifestCall(OneFile(sha, p, data), [second]), Returned(true))] &&
            sha !in s'.w.reg.staged && sha in s'.w.reg.commits && s'.w.reg.refs.Keys == {second}
  {
    var s, m := trace[|trace| - 1], OneFile(sha, p, data);
    IndexedIsComplete(s.w.reg, m.files);
    hide Run, PerformAll, RecordAll, Missing, LayersOf, PublishRequests;
    trace' := ManifestRuns(c, TarLayers, NO_FAULTS, trace, 2, m, [second]);
    PublishEffect(c, TarLayers, s.w, m, LayersOf(TarLayers, s.w.reg, m.files), [second]);
  }
}
