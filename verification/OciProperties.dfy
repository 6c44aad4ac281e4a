/** What every run on an OCI repository keeps, whatever fails: exact index entries, complete tags,
    and refs beside their commits. */
module OciProperties {
  import opened Common
  import opened StringOrder
  import opened OciStaging
  import opened OciRuns

  // ---------------------------------------------------------------- who holds the lock

  /** The lock holder is the one call inside, and only DeleteRepo deletes tags. */
  ghost predicate Owned(s: State) {
    && (forall t :: t in s.threads && s.threads[t].pc.Inside? ==> s.lock.Some? && s.lock.value.owner == t)
    && (s.lock.Some? ==>
          var x := s.lock.value;
          x.owner in s.threads && s.threads[x.owner] == Thread(x.call, Inside) && OwnKind(x))
  }

  ghost predicate OwnKind(x: Section) {
    && (x.next.DeleteAll? ==> x.call.DeleteRepoCall?)
    && (x.call.DeleteRepoCall? ==> x.next.DeleteAll? || x.next.Done?)
    && (x.next.DeleteAll? ==> x.todo == [])
    && (forall k :: 0 <= k < |x.todo| ==> (x.todo[k].DeleteTag? <==> x.call.DeleteRepoCall?))
    && (x.next.UpdateIndex? ==> x.todo == [] && x.call.PutBlobCall? && x.call.digest == x.next.digest)
  }

  lemma PublishKinds(c: Codec, format: Format, m: Manifest, layers: seq<Layer>, refs: seq<string>)
    ensures forall k :: 0 <= k < |PublishRequests(c, format, m, layers, refs)| ==>
              !PublishRequests(c, format, m, layers, refs)[k].DeleteTag?
  {
    var todo := PublishRequests(c, format, m, layers, refs);
    forall q | q in todo ensures !q.DeleteTag? {
    }
  }

  lemma DecideKeepsKind(c: Codec, format: Format, w: World, x: Section, todo: seq<Request>, next: Decision)
    requires OwnKind(x) && x.todo == [] && Decides(c, format, w, x.next, todo, next)
    ensures OwnKind(x.(todo := todo, next := next))
  {
    hide PublishRequests, LayersOf, Missing, EntryFor, Sorted, Enumerates, TagsOf, Split, Names, StagedRefs;
    match x.next {
      case PutOrStage(m, refs) => PublishKinds(c, format, m, LayersOf(format, w.reg, m.files), refs);
      case PromoteEach(shas, left) =>
        if shas != [] && shas[0] in w.reg.staged {
          var m := w.reg.staged[shas[0]].manifest;
          PublishKinds(c, format, m, LayersOf(format, w.reg, m.files), Sorted(Names(Split(w.reg.staged[shas[0]].refs))));
        }
      case _ =>
    }
  }

  /** A call outside the lock moves and stays outside. */
  lemma OutsideKeepsOwned(s: State, s': State)
    requires Owned(s) && s'.lock == s.lock
    requires forall t :: t in s.threads && s.threads[t].pc.Inside? ==> t in s'.threads && s'.threads[t] == s.threads[t]
    requires forall t :: t in s'.threads && s'.threads[t].pc.Inside? ==> t in s.threads && s.threads[t].pc.Inside?
    ensures Owned(s')
  {
    hide OwnKind;
  }

  /** One thread moves, from outside the lock to outside the lock. */
  ghost predicate OneOutside(s: State, s': State, t: nat) {
    t in s'.threads && !s'.threads[t].pc.Inside? && s'.threads == s.threads[t := s'.threads[t]] &&
    (t in s.threads ==> !s.threads[t].pc.Inside? && s'.threads[t].call == s.threads[t].call)
  }

  lemma OutsideIsOne(c: Codec, format: Format, s: State, s': State)
    requires OutsideStep(c, format, s, s') || FaultOutsideStep(format, s, s')
    ensures s'.threads == s.threads || exists t :: OneOutside(s, s', t)
  {
    hide OneOutside, FaultOutsideStep, CheckStep, UploadStep, PendingStep;
    if StartStep(s, s') {
      var t: nat, call :| t !in s.threads && s' == Started(s, t, call);
      MoveIsOne(s, s', t);
    } else if CheckStep(format, s, s') {
      CheckIsOne(format, s, s');
    } else if UploadStep(c, format, s, s') {
      UploadIsOne(c, format, s, s');
    } else if PendingStep(format, s, s') {
      PendingIsOne(format, s, s');
    } else if FaultOutsideStep(format, s, s') {
      FaultIsOne(format, s, s');
    }
  }

  lemma CheckIsOne(format: Format, s: State, s': State)
    requires CheckStep(format, s, s')
    ensures exists t :: OneOutside(s, s', t)
  {
    hide AlreadyHeld, OneOutside;
    var t :| t in s.threads && s.threads[t].pc.Begin? && s.threads[t].call.PutBlobCall? && s' == Checked(format, s, t);
    MoveIsOne(s, s', t);
  }

  lemma UploadIsOne(c: Codec, format: Format, s: State, s': State)
    requires UploadStep(c, format, s, s')
    ensures exists t :: OneOutside(s, s', t)
  {
    hide Uploaded, OneOutside;
    var t, cut :| t in s.threads && s.threads[t].pc.Uploading? && s.threads[t].call.PutBlobCall? &&
                  s' == AfterUpload(c, format, s, t, cut);
    MoveIsOne(s, s', t);
  }

  lemma PendingIsOne(format: Format, s: State, s': State)
    requires PendingStep(format, s, s')
    ensures exists t :: OneOutside(s, s', t)
  {
    hide HasPending, OneOutside;
    var t :| t in s.threads && s.threads[t].pc.Verified? && s' == AfterPending(s, t);
    MoveIsOne(s, s', t);
  }

  lemma FaultIsOne(format: Format, s: State, s': State)
    requires FaultOutsideStep(format, s, s')
    ensures exists t :: OneOutside(s, s', t)
  {
    hide OneOutside;
    if FailOutsideStep(s, s') {
      var t :| t in s.threads && !s.threads[t].pc.Inside? && !s.threads[t].pc.Returned? && s' == At(s, t, Returned(false));
      MoveIsOne(s, s', t);
    } else {
      var t :| t in s.threads && s.threads[t].pc.Verified? && format.ModelPack? && !s.w.pending && s' == At(s, t, Returned(true));
      MoveIsOne(s, s', t);
    }
  }

  lemma MoveIsOne(s: State, s': State, t: nat)
    requires t in s'.threads && s'.threads == s.threads[t := s'.threads[t]] && !s'.threads[t].pc.Inside?
    requires t in s.threads ==> !s.threads[t].pc.Inside? && s'.threads[t].call == s.threads[t].call
    ensures OneOutside(s, s', t)
  {
  }

  lemma OutsideMovesOutside(c: Codec, format: Format, s: State, s': State)
    requires OutsideStep(c, format, s, s') || FaultOutsideStep(format, s, s')
    ensures s'.lock == s.lock
    ensures forall t :: t in s.threads && s.threads[t].pc.Inside? ==> t in s'.threads && s'.threads[t] == s.threads[t]
    ensures forall t :: t in s'.threads && s'.threads[t].pc.Inside? ==> t in s.threads && s.threads[t].pc.Inside?
  {
    OutsideIsQuiet(c, format, s, s');
    OutsideIsOne(c, format, s, s');
    hide OutsideStep, FaultOutsideStep;
    if s'.threads != s.threads {
      var t :| OneOutside(s, s', t);
    }
  }

  /** The section moves on and keeps its owner. */
  lemma SectionKeepsOwned(s: State, s': State)
    requires Owned(s) && s.lock.Some? && s'.lock.Some? && s'.threads == s.threads
    requires s'.lock.value.owner == s.lock.value.owner && s'.lock.value.call == s.lock.value.call && OwnKind(s'.lock.value)
    ensures Owned(s')
  {
    hide OwnKind;
  }

  lemma LeaveKeepsOwned(f: Faults, s: State, s': State)
    requires Owned(s) && (UnlockStep(s, s') || FailInsideStep(f, s, s'))
    ensures Owned(s')
  {
    hide OwnKind;
  }

  lemma DecisionKeepsOwned(c: Codec, format: Format, f: Faults, s: State, s': State)
    requires Owned(s) && (DecideStep(c, format, s, s') || SwallowStep(c, format, f, s, s'))
    ensures Owned(s')
  {
    hide OwnKind, Decides, Swallows;
    if DecideStep(c, format, s, s') {
      var todo, next :| Decides(c, format, s.w, s.lock.value.next, todo, next) && s' == Decided(s, todo, next);
      DecideKeepsKind(c, format, s.w, s.lock.value, todo, next);
    } else {
      var todo, next :| Swallows(c, format, f, s.w, s.lock.value.next, todo, next) && s' == Decided(s, todo, next);
      SwallowKeepsKind(c, format, f, s.w, s.lock.value, todo, next);
    }
    SectionKeepsOwned(s, s');
  }

  lemma RequestKeepsOwned(f: Faults, s: State, s': State)
    requires Owned(s) && (PerformStep(s, s') || SkipStep(f, s, s'))
    ensures Owned(s')
  {
    hide OwnKind, Perform, Record, Keep, Miss, MayFail;
    ShorterKeepsKind(s.lock.value);
    SectionKeepsOwned(s, s');
  }

  lemma NextKeepsOwned(c: Codec, format: Format, f: Faults, s: State, s': State)
    requires Owned(s) && Next(c, format, f, s, s')
    ensures Owned(s')
  {
    if OutsideStep(c, format, s, s') || FaultOutsideStep(format, s, s') {
      OutsideMovesOutside(c, format, s, s');
      hide *;
      OutsideKeepsOwned(s, s');
    } else if LockStep(format, s, s') {
      hide *;
      EnterIsOwned(format, s, s');
    } else if DecideStep(c, format, s, s') {
      hide *;
      DecisionKeepsOwned(c, format, f, s, s');
    } else if SwallowStep(c, format, f, s, s') {
      hide *;
      DecisionKeepsOwned(c, format, f, s, s');
    } else if PerformStep(s, s') || SkipStep(f, s, s') {
      hide *;
      RequestKeepsOwned(f, s, s');
    } else {
      hide Owned, OutsideStep, FailOutsideStep, LockStep, DecideStep, PerformStep, SkipStep;
      LeaveKeepsOwned(f, s, s');
    }
  }

  lemma SwallowKeepsKind(c: Codec, format: Format, f: Faults, w: World, x: Section, todo: seq<Request>, next: Decision)
    requires OwnKind(x) && x.todo == [] && Swallows(c, format, f, w, x.next, todo, next)
    ensures OwnKind(x.(todo := todo, next := next))
  {
    hide PublishRequests, LayersOf, Missing, StagedRefs;
    if x.next.PutOrStage? {
      PublishKinds(c, format, x.next.manifest, LayersOf(format, w.reg, x.next.manifest.files), x.next.refs);
    }
  }

  lemma EnterIsOwned(format: Format, s: State, s': State)
    requires Owned(s) && LockStep(format, s, s')
    ensures Owned(s')
  {
  }

  lemma ShorterKeepsKind(x: Section)
    requires OwnKind(x) && x.todo != []
    ensures OwnKind(x.(todo := x.todo[1..]))
  {
  }

  lemma {:induction false} RunIsOwned(c: Codec, format: Format, f: Faults, trace: seq<State>, i: nat)
    requires Run(c, format, f, trace) && i < |trace|
    ensures Owned(trace[i])
  {
    hide Next;
    if i > 0 {
      hide Owned;
      RunIsOwned(c, format, f, trace, i - 1);
      NextKeepsOwned(c, format, f, trace[i - 1], trace[i]);
    }
  }

  // ---------------------------------------------------------------- main results: index and tags

  /** At every step, failures included, each index entry's window holds exactly the bytes whose
      sha256 is its key. */
  lemma EntriesAreExact(c: Codec, format: Format, f: Faults, trace: seq<State>, i: nat, d: Digest)
    requires Run(c, format, f, trace) && i < |trace| && d in IndexOf(trace[i].w.reg)
    ensures var e := IndexOf(trace[i].w.reg)[d];
            d.Sha256? && e.layer in trace[i].w.reg.blobs && Holds(e, d)
  {
    RunIsSound(c, format, f, trace, i);
    hide Run, Holds;
    EntryHolds(c, d);
  }

  /** Only DeleteRepo takes entries away, and entries never change. */
  lemma EntriesNeverLost(c: Codec, format: Format, f: Faults, trace: seq<State>, i: nat, d: Digest)
    requires Run(c, format, f, trace) && i + 1 < |trace| && d in IndexOf(trace[i].w.reg)
    ensures d in IndexOf(trace[i + 1].w.reg) ==> IndexOf(trace[i + 1].w.reg)[d] == IndexOf(trace[i].w.reg)[d]
    ensures d !in IndexOf(trace[i + 1].w.reg) ==> trace[i].lock.Some? && trace[i].lock.value.call.DeleteRepoCall?
  {
    RunIsSound(c, format, f, trace, i);
    RunIsSound(c, format, f, trace, i + 1);
    RunIsOwned(c, format, f, trace, i);
    assert Next(c, format, f, trace[i], trace[i + 1]);
    hide Run, Next;
    var s, s' := trace[i], trace[i + 1];
    if d !in IndexOf(s'.w.reg) {
      IndexShrinksOnlyByDelete(c, format, f, s, s', d);
      hide EntryFor;
    } else {
      hide EntryFor;
    }
  }

  lemma IndexShrinksOnlyByDelete(c: Codec, format: Format, f: Faults, s: State, s': State, d: Digest)
    requires Next(c, format, f, s, s') && Sound(c, format, s) && d in IndexOf(s.w.reg) && d !in IndexOf(s'.w.reg)
    ensures s.lock.Some? && s.lock.value.todo != [] && s.lock.value.todo[0].DeleteTag?
  {
    hide EntryFor, TagsOk, IndexOk, ImageOk, Decides, Swallows, HasPending, AlreadyHeld, UploadedLayer, MayFail;
    if OutsideStep(c, format, s, s') || FaultOutsideStep(format, s, s') {
      OutsideIsQuiet(c, format, s, s');
    } else if PerformStep(s, s') {
      assert Prepared(c, s.w.reg, s.lock.value.todo[0]);
    }
  }

  /** At every step each commit tag and ref tag describes a commit all of whose file layers are
      in the registry: layer k is a window holding file k's content. */
  lemma TagsAreComplete(c: Codec, format: Format, f: Faults, trace: seq<State>, i: nat, image: Image, k: nat)
    requires Run(c, format, f, trace) && i < |trace| && image in trace[i].w.reg.commits.Values + trace[i].w.reg.refs.Values
    requires k < |image.manifest.files|
    ensures k < |image.layers| == |image.manifest.files| &&
            var (f, layer) := (image.manifest.files[k], image.layers[k]);
            layer.path == f.path && f.digest == Some(layer.fileDigest) && layer.entry.layer in trace[i].w.reg.blobs &&
            Holds(layer.entry, layer.fileDigest)
  {
    RunIsSound(c, format, f, trace, i);
    hide Run, Holds;
    var reg := trace[i].w.reg;
    if image in reg.commits.Values {
      var sha :| sha in reg.commits && reg.commits[sha] == image;
    } else {
      var r :| r in reg.refs && reg.refs[r] == image;
    }
    assert LayerOk(reg.blobs, image.manifest.files[k], image.layers[k]);
  }

  // ---------------------------------------------------------------- refs stand beside their commit

  ghost predicate RefsHaveCommits(reg: Registry) {
    forall r :: r in reg.refs ==> reg.refs[r].manifest.sha in reg.commits
  }

  /** A ref is written only after its commit tag. */
  ghost predicate CommitsFirst(reg: Registry, todo: seq<Request>) {
    forall k :: 0 <= k < |todo| && todo[k].PutRef? ==> CommitBefore(reg, todo, k)
  }

  ghost predicate CommitBefore(reg: Registry, todo: seq<Request>, k: nat)
    requires k < |todo| && todo[k].PutRef?
  {
    todo[k].image.manifest.sha in reg.commits ||
    exists j :: 0 <= j < k && todo[j].PutCommit? && todo[j].image.manifest.sha == todo[k].image.manifest.sha
  }

  /** A deletion in progress still has every remaining ref on its list. */
  ghost predicate RefsListed(reg: Registry, todo: seq<Request>) {
    forall r :: r in reg.refs ==> DeleteTag(RefTag(r)) in todo
  }

  ghost predicate Deleting(x: Section) { x.call.DeleteRepoCall? && x.next.Done? }

  ghost predicate Tied(s: State) {
    !s.torn ==>
      if s.lock.Some? && Deleting(s.lock.value) then RefsListed(s.w.reg, s.lock.value.todo)
      else RefsHaveCommits(s.w.reg) && (s.lock.Some? ==> CommitsFirst(s.w.reg, s.lock.value.todo))
  }

  lemma PublishCommitsFirst(c: Codec, format: Format, reg: Registry, m: Manifest, layers: seq<Layer>, refs: seq<string>)
    ensures CommitsFirst(reg, PublishRequests(c, format, m, layers, refs))
  {
    var image := Image(m, layers);
    var pushes := ManifestPushes(c, format, m, layers);
    var todo := PublishRequests(c, format, m, layers, refs);
    var n := |pushes|;
    assert todo[n] == PutCommit(image);
    assert forall i :: 0 <= i < n ==> todo[i] == pushes[i] && todo[i].PushBlob?;
    forall k | 0 <= k < |todo| && todo[k].PutRef? ensures CommitBefore(reg, todo, k) {
      assert n < k < |todo| - 1 && todo[k] == RefRequests(refs, image)[k - n - 1];
    }
  }

  lemma DecideKeepsTied(c: Codec, format: Format, s: State, todo: seq<Request>, next: Decision)
    requires Tied(s) && s.lock.Some? && s.lock.value.todo == [] && OwnKind(s.lock.value)
    requires Decides(c, format, s.w, s.lock.value.next, todo, next)
    ensures Tied(Decided(s, todo, next))
  {
    hide PublishRequests, LayersOf, Missing, EntryFor, Sorted, Split, Names, StagedRefs;
    var x := s.lock.value;
    match x.next {
      case PutOrStage(m, refs) => PublishCommitsFirst(c, format, s.w.reg, m, LayersOf(format, s.w.reg, m.files), refs);
      case PromoteEach(shas, left) =>
        if shas != [] && shas[0] in s.w.reg.staged {
          var m := s.w.reg.staged[shas[0]].manifest;
          PublishCommitsFirst(c, format, s.w.reg, m, LayersOf(format, s.w.reg, m.files),
                              Sorted(Names(Split(s.w.reg.staged[shas[0]].refs))));
        }
      case DeleteAll => DeletionListsRefs(s.w.reg, todo);
      case _ =>
    }
  }

  lemma SwallowKeepsTied(c: Codec, format: Format, f: Faults, s: State, todo: seq<Request>, next: Decision)
    requires Tied(s) && s.lock.Some? && s.lock.value.todo == [] && OwnKind(s.lock.value)
    requires Swallows(c, format, f, s.w, s.lock.value.next, todo, next)
    ensures Tied(Decided(s, todo, next))
  {
    hide PublishRequests, LayersOf, Missing, StagedRefs;
    if s.lock.value.next.PutOrStage? {
      var m := s.lock.value.next.manifest;
      PublishCommitsFirst(c, format, s.w.reg, m, LayersOf(format, s.w.reg, m.files), s.lock.value.next.refs);
    }
  }

  lemma DeletionListsRefs(reg: Registry, todo: seq<Request>)
    requires exists tags :: Enumerates(tags, TagsOf(reg)) && todo == DeleteRequests(tags)
    ensures RefsListed(reg, todo)
  {
    var tags :| Enumerates(tags, TagsOf(reg)) && todo == DeleteRequests(tags);
    forall r | r in reg.refs ensures DeleteTag(RefTag(r)) in todo {
      assert RefTag(r) in tags;
      var k :| 0 <= k < |tags| && tags[k] == RefTag(r);
      assert todo[k] == DeleteTag(RefTag(r));
    }
  }

  lemma PerformKeepsTied(s: State)
    requires Tied(s) && s.lock.Some? && s.lock.value.todo != [] && OwnKind(s.lock.value)
    ensures Tied(Performed(s))
  {
    var x := s.lock.value;
    var q, rest := x.todo[0], x.todo[1..];
    if !s.torn {
      if Deleting(x) {
        PerformKeepsListed(s.w, x.todo);
      } else {
        assert q.PutRef? ==> CommitBefore(s.w.reg, x.todo, 0);
        PerformKeepsCommitsFirst(s.w, x.todo);
        hide CommitsFirst;
      }
    }
  }

  lemma PerformKeepsListed(w: World, todo: seq<Request>)
    requires todo != [] && RefsListed(w.reg, todo) && todo[0].DeleteTag?
    ensures RefsListed(Perform(w, todo[0]).reg, todo[1..])
  {
    forall r | r in Perform(w, todo[0]).reg.refs ensures DeleteTag(RefTag(r)) in todo[1..] {
      assert DeleteTag(RefTag(r)) in todo && todo[0] != DeleteTag(RefTag(r));
    }
  }

  lemma PerformKeepsCommitsFirst(w: World, todo: seq<Request>)
    requires todo != [] && CommitsFirst(w.reg, todo) && !todo[0].DeleteTag?
    ensures CommitsFirst(Perform(w, todo[0]).reg, todo[1..])
  {
    var rest := todo[1..];
    forall k | 0 <= k < |rest| && rest[k].PutRef? ensures CommitBefore(Perform(w, todo[0]).reg, rest, k) {
      assert rest[k] == todo[k + 1] && CommitBefore(w.reg, todo, k + 1);
      if todo[k + 1].image.manifest.sha !in w.reg.commits {
        var j :| 0 <= j < k + 1 && todo[j].PutCommit? && todo[j].image.manifest.sha == todo[k + 1].image.manifest.sha;
        if j > 0 { assert rest[j - 1] == todo[j]; }
      }
    }
  }

  lemma SkipKeepsTied(f: Faults, s: State, s': State)
    requires Tied(s) && SkipStep(f, s, s')
    ensures Tied(s')
  {
    if !s'.torn && !(s.lock.Some? && Deleting(s.lock.value)) {
      SkipKeepsCommitsFirst(s.w.reg, s.lock.value.todo);
    }
    if !s'.torn && Deleting(s.lock.value) {
      assert forall r :: r in s.w.reg.refs ==> DeleteTag(RefTag(r)) in s.lock.value.todo[1..];
    }
    hide CommitsFirst;
  }

  lemma SkipKeepsCommitsFirst(reg: Registry, todo: seq<Request>)
    requires todo != [] && CommitsFirst(reg, todo) && !todo[0].PutCommit?
    ensures CommitsFirst(reg, todo[1..])
  {
    var rest := todo[1..];
    forall k | 0 <= k < |rest| && rest[k].PutRef? ensures CommitBefore(reg, rest, k) {
      assert rest[k] == todo[k + 1] && CommitBefore(reg, todo, k + 1);
      if todo[k + 1].image.manifest.sha !in reg.commits {
        var j :| 0 <= j < k + 1 && todo[j].PutCommit? && todo[j].image.manifest.sha == todo[k + 1].image.manifest.sha;
        assert rest[j - 1] == todo[j];
      }
    }
  }

  lemma QuietKeepsTied(s: State, s': State)
    requires Tied(s) && Quiet(s, s')
    ensures Tied(s')
  {
  }

  lemma LockStepsKeepTied(format: Format, f: Faults, s: State, s': State)
    requires Tied(s) && Owned(s) && (LockStep(format, s, s') || UnlockStep(s, s') || FailInsideStep(f, s, s'))
    ensures Tied(s')
  {
    hide CommitBefore;
    if UnlockStep(s, s') && !s.torn && Deleting(s.lock.value) {
      assert forall r :: r in s.w.reg.refs ==> DeleteTag(RefTag(r)) in s.lock.value.todo;
    }
  }

  lemma NextKeepsTied(c: Codec, format: Format, f: Faults, s: State, s': State)
    requires Tied(s) && Owned(s) && Next(c, format, f, s, s')
    ensures Tied(s')
  {
    hide Tied, Quiet, OwnKind, LockStep, UnlockStep, FailInsideStep, SkipStep, OutsideStep, FaultOutsideStep, Decides, Swallows,
         Performed;
    if OutsideStep(c, format, s, s') || FaultOutsideStep(format, s, s') {
      OutsideIsQuiet(c, format, s, s');
      QuietKeepsTied(s, s');
    } else if DecideStep(c, format, s, s') {
      var todo, next :| Decides(c, format, s.w, s.lock.value.next, todo, next) && s' == Decided(s, todo, next);
      DecideKeepsTied(c, format, s, todo, next);
    } else if SwallowStep(c, format, f, s, s') {
      var todo, next :| Swallows(c, format, f, s.w, s.lock.value.next, todo, next) && s' == Decided(s, todo, next);
      SwallowKeepsTied(c, format, f, s, todo, next);
    } else if PerformStep(s, s') {
      PerformKeepsTied(s);
    } else if SkipStep(f, s, s') {
      SkipKeepsTied(f, s, s');
    } else {
      LockStepsKeepTied(format, f, s, s');
    }
  }

  lemma {:induction false} RunIsTied(c: Codec, format: Format, f: Faults, trace: seq<State>, i: nat)
    requires Run(c, format, f, trace) && i < |trace|
    ensures Tied(trace[i])
  {
    hide Next;
    if i > 0 {
      hide Tied;
      RunIsTied(c, format, f, trace, i - 1);
      RunIsOwned(c, format, f, trace, i - 1);
      NextKeepsTied(c, format, f, trace[i - 1], trace[i]);
    }
  }

  /** At every step each ref tag's commit also has its commit tag, unless a DeleteRepo is under
      way or has stopped half-way. */
  lemma RefsStandBesideCommits(c: Codec, format: Format, f: Faults, trace: seq<State>, i: nat, r: string)
    requires Run(c, format, f, trace) && i < |trace| && r in trace[i].w.reg.refs
    requires !trace[i].torn && (trace[i].lock.Some? ==> !trace[i].lock.value.call.DeleteRepoCall?)
    ensures var sha := trace[i].w.reg.refs[r].manifest.sha;
            sha in trace[i].w.reg.commits && trace[i].w.reg.commits[sha].manifest.sha == sha
  {
    hide Run;
    RunIsTied(c, format, f, trace, i);
    RunIsSound(c, format, f, trace, i);
    hide IndexOk;
  }

  /** Under the same proviso, whatever ResolveRef answers is a commit GetManifest finds, and the
      manifest found is that commit's. */
  lemma ResolvedRefIsFound(c: Codec, format: Format, f: Faults, trace: seq<State>, i: nat, ref: string)
    requires Run(c, format, f, trace) && i < |trace| && ResolvedRef(trace[i].w.reg, ref).Some?
    requires !trace[i].torn && (trace[i].lock.Some? ==> !trace[i].lock.value.call.DeleteRepoCall?)
    ensures var sha := ResolvedRef(trace[i].w.reg, ref).value;
            FoundManifest(trace[i].w.reg, sha).Some? && FoundManifest(trace[i].w.reg, sha).value.sha == sha
  {
    RunIsSound(c, format, f, trace, i);
    if !IsCommitSHA(ref) {
      RefsStandBesideCommits(c, format, f, trace, i, ref);
    }
    hide Run, IndexOk, ImageOk, IsCommitSHA;
  }
}
