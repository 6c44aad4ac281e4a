/** Any number of Commit calls interleaved on one repo, call by call to the backend, with
    failures anywhere (internal/relay/write.go, Commit and lockRepo). */
module RelayRuns {
  import opened Common
  import opened RelayCommit

  datatype Failure = Rejected(error: CommitError) | BackendFailed

  type Answer = Result<CommitId, Failure>

  /** Where a call stands between two of its backend calls. */
  datatype Pc =
    | Waiting
    | Locked
    | HasHead(parent: CommitId)
    | Storing(parent: CommitId, tree: Tree, k: nat)
    | Checking(parent: CommitId, tree: Tree, k: nat, missing: seq<Path>)
    | Built(parent: CommitId, tree: Tree)
    | WroteManifest(parent: CommitId, head: CommitId)
    | WroteRef(head: CommitId)
    | Releasing(answer: Answer)
    | Returned(answer: Answer)
  {
    predicate HoldsLock() { !Waiting? && !Returned? }
  }

  datatype Thread = Thread(revision: string, ops: CommitOps, pc: Pc)

  /** One new branch head, in the order the heads were written. */
  datatype Entry = Entry(revision: string, ops: CommitOps, parent: CommitId, head: CommitId, queued: bool)

  datatype State = State(repo: Repo, holder: Option<nat>, threads: map<nat, Thread>, log: seq<Entry>)

  function At(s: State, t: nat, pc: Pc): State
    requires t in s.threads
  {
    s.(threads := s.threads[t := s.threads[t].(pc := pc)])
  }

  /** The commit these operations mint on a parent with this tree. */
  ghost function Child(parent: CommitId, tree: Tree, ops: CommitOps): CommitId {
    Minted(Some(parent), Listing(NewTree(tree, ops)), ops.summary)
  }

  // ---------------------------------------------------------------- steps

  /** The next backend call of the lock holder, when the backend does not fail. */
  ghost function Advance(s: State, t: nat): State
    requires t in s.threads
  {
    var th := s.threads[t];
    var rev, ops := th.revision, th.ops;
    match th.pc
    case Locked =>
      if rev !in s.repo.refs then At(s, t, Releasing(Err(Rejected(RevisionNotFound))))
      else if ops.parentCommit.Some? && ops.parentCommit.value != s.repo.refs[rev] then
        At(s, t, Releasing(Err(Rejected(ParentMismatch))))
      else At(s, t, HasHead(s.repo.refs[rev]))
    case HasHead(p) =>
      if p !in s.repo.manifests then At(s, t, Releasing(Err(Rejected(RevisionNotFound))))
      else At(s, t, Storing(p, s.repo.manifests[p], 0))
    case Storing(p, tree, k) =>
      if k < |ops.files| then
        At(s, t, Storing(p, tree, k + 1)).(repo := s.repo.(blobs := s.repo.blobs + {Sha256(ops.files[k].1)}))
      else At(s, t, Checking(p, tree, 0, []))
    case Checking(p, tree, k, missing) =>
      if k < |ops.lfsFiles| then
        var f := ops.lfsFiles[k];
        At(s, t, Checking(p, tree, k + 1, missing + if f.digest in s.repo.blobs then [] else [f.path]))
      else if missing != [] then At(s, t, Releasing(Err(Rejected(LFSBlobMissing(missing)))))
      else At(s, t, Built(p, tree))
    case Built(p, tree) =>
      var c := Child(p, tree, ops);
      if tree == c.tree then At(s, t, Releasing(Ok(p)))
      else At(s, t, WroteManifest(p, c)).(repo := s.repo.(manifests := s.repo.manifests[c := c.tree]))
    case WroteManifest(p, c) =>
      At(s, t, WroteRef(c)).(repo := s.repo.(refs := s.repo.refs[rev := c]), log := s.log + [Entry(rev, ops, p, c, false)])
    case WroteRef(c) =>
      At(s, t, Releasing(Ok(c))).(repo := s.repo.(fanout := s.repo.fanout + [(rev, c)]), log := MarkQueued(s.log))
    case _ => s
  }

  function MarkQueued(log: seq<Entry>): seq<Entry> {
    if log == [] then [] else log[|log| - 1 := log[|log| - 1].(queued := true)]
  }

  ghost predicate StartStep(s: State, s': State) {
    exists t: nat, rev, ops :: t !in s.threads && s' == Started(s, t, rev, ops)
  }

  function Started(s: State, t: nat, rev: string, ops: CommitOps): State {
    s.(threads := s.threads[t := Thread(rev, ops, if IsCommitSHA(rev) then Returned(Err(Rejected(BadRevision))) else Waiting)])
  }

  ghost predicate LockStep(s: State, s': State) {
    exists t :: t in s.threads && s.threads[t].pc.Waiting? && s.holder.None? && s' == At(s, t, Locked).(holder := Some(t))
  }

  ghost predicate WorkStep(s: State, s': State) {
    exists t :: t in s.threads && s.threads[t].pc.HoldsLock() && !s.threads[t].pc.Releasing? && s' == Advance(s, t)
  }

  /** A backend call of the lock holder fails, or it had its effect and failed afterwards. */
  ghost predicate FailStep(s: State, s': State) {
    exists t :: t in s.threads && s.threads[t].pc.HoldsLock() && !s.threads[t].pc.Releasing? && !s.threads[t].pc.Checking? &&
                s' == At(s, t, Releasing(Err(BackendFailed)))
  }

  /** A failing StatBlob counts as a missing blob, whatever the reason. */
  ghost predicate StatFailStep(s: State, s': State) {
    exists t :: t in s.threads && CanStat(s.threads[t]) && s' == StatFailed(s, t)
  }

  predicate CanStat(th: Thread) { th.pc.Checking? && th.pc.k < |th.ops.lfsFiles| }

  function StatFailed(s: State, t: nat): State
    requires t in s.threads && CanStat(s.threads[t])
  {
    var th := s.threads[t];
    At(s, t, Checking(th.pc.parent, th.pc.tree, th.pc.k + 1, th.pc.missing + [th.ops.lfsFiles[th.pc.k].path]))
  }

  /** Enqueue errors are logged and never surfaced. */
  ghost predicate EnqueueFailStep(s: State, s': State) {
    exists t :: t in s.threads && s.threads[t].pc.WroteRef? && s' == At(s, t, Releasing(Ok(s.threads[t].pc.head)))
  }

  ghost predicate UnlockStep(s: State, s': State) {
    exists t :: t in s.threads && s.threads[t].pc.Releasing? &&
                s' == At(s, t, Returned(s.threads[t].pc.answer)).(holder := None)
  }

  /** A batch upload stores an LFS blob; it takes no lock. */
  ghost predicate UploadStep(s: State, s': State) {
    exists d :: s' == s.(repo := s.repo.(blobs := s.repo.blobs + {d}))
  }

  ghost predicate Next(s: State, s': State) {
    StartStep(s, s') || LockStep(s, s') || WorkStep(s, s') || FailStep(s, s') || StatFailStep(s, s') ||
    EnqueueFailStep(s, s') || UnlockStep(s, s') || UploadStep(s, s')
  }

  /** Runs from a repo where nothing is in flight. */
  ghost predicate Run(r0: Repo, trace: seq<State>) {
    && trace != [] && WellFormed(r0)
    && trace[0] == State(r0, None, map[], [])
    && forall i :: 0 <= i < |trace| - 1 ==> Next(trace[i], trace[i + 1])
  }

  // ---------------------------------------------------------------- what the log explains

  /** The tree of a commit: minted ids name theirs, mirrored ones were stored from the start. */
  function TreeOf(r0: Repo, c: CommitId): Tree {
    if c.Minted? then c.tree else if c in r0.manifests then r0.manifests[c] else []
  }

  /** A branch's head after the logged commits. */
  function HeadAfter(head0: CommitId, log: seq<Entry>, revision: string): CommitId {
    if log == [] then head0
    else
      var last := log[|log| - 1];
      if last.revision == revision then last.head else HeadAfter(head0, log[..|log| - 1], revision)
  }

  /** The branch's tree if the logged operations are applied to it one after the other. */
  ghost function Replay(tree0: Tree, log: seq<Entry>, revision: string): Tree {
    if log == [] then tree0
    else
      var last := log[|log| - 1];
      var before := Replay(tree0, log[..|log| - 1], revision);
      if last.revision == revision then Listing(NewTree(before, last.ops)) else before
  }

  function Queued(log: seq<Entry>): seq<(string, CommitId)> {
    if log == [] then []
    else
      var last := log[|log| - 1];
      Queued(log[..|log| - 1]) + if last.queued then [(last.revision, last.head)] else []
  }

  predicate ParentAgrees(ops: CommitOps, parent: CommitId) {
    ops.parentCommit.None? || ops.parentCommit.value == parent
  }

  /** Each head was minted from its operations on the immediately previous head of its branch. */
  ghost predicate Chained(r0: Repo, log: seq<Entry>) {
    forall i {:trigger log[i]} :: 0 <= i < |log| ==>
      var e := log[i];
      e.revision in r0.refs && e.parent == HeadAfter(r0.refs[e.revision], log[..i], e.revision) &&
      ParentAgrees(e.ops, e.parent) && e.head == Child(e.parent, TreeOf(r0, e.parent), e.ops)
  }

  /** Why a call may answer c: it wrote c, or c was the head and the operations change nothing. */
  ghost predicate Explained(r0: Repo, log: seq<Entry>, revision: string, ops: CommitOps, c: CommitId) {
    (exists i :: 0 <= i < |log| && Wrote(log[i], revision, ops, c)) ||
    (exists k :: 0 <= k <= |log| && WasNoOp(r0, log, k, revision, ops, c))
  }

  ghost predicate Wrote(e: Entry, revision: string, ops: CommitOps, c: CommitId) {
    e.revision == revision && e.ops == ops && e.head == c
  }

  ghost predicate WasNoOp(r0: Repo, log: seq<Entry>, k: nat, revision: string, ops: CommitOps, c: CommitId)
    requires k <= |log|
  {
    revision in r0.refs && HeadAfter(r0.refs[revision], log[..k], revision) == c && ParentAgrees(ops, c) &&
    Listing(NewTree(TreeOf(r0, c), ops)) == TreeOf(r0, c)
  }

  /** Why a call may be refused: a revision that is a commit id or no branch, a named parent that
      was not the head at some point, or LFS files named as missing. A backend failure needs no reason. */
  ghost predicate Refused(r0: Repo, log: seq<Entry>, revision: string, ops: CommitOps, f: Failure) {
    f.Rejected? ==>
      match f.error
      case BadRevision => IsCommitSHA(revision)
      case RevisionNotFound => revision !in r0.refs
      case ParentMismatch => exists k :: 0 <= k <= |log| && WasElsewhere(r0, log, k, revision, ops)
      case LFSBlobMissing(paths) => paths != [] && NamesLFS(ops, paths)
  }

  ghost predicate WasElsewhere(r0: Repo, log: seq<Entry>, k: nat, revision: string, ops: CommitOps)
    requires k <= |log|
  {
    revision in r0.refs && !ParentAgrees(ops, HeadAfter(r0.refs[revision], log[..k], revision))
  }

  predicate NamesLFS(ops: CommitOps, paths: seq<Path>) {
    forall p :: p in paths ==> exists i :: 0 <= i < |ops.lfsFiles| && ops.lfsFiles[i].path == p
  }

  ghost predicate Accounted(r0: Repo, log: seq<Entry>, revision: string, ops: CommitOps, a: Answer) {
    match a
    case Ok(c) => Explained(r0, log, revision, ops, c)
    case Err(f) => Refused(r0, log, revision, ops, f)
  }

  /** Branches, manifests and fan-out are exactly what the log says. */
  ghost predicate Serial(r0: Repo, s: State) {
    && Chained(r0, s.log)
    && s.repo.refs.Keys == r0.refs.Keys
    && (forall b :: b in r0.refs ==> s.repo.refs[b] == HeadAfter(r0.refs[b], s.log, b) && s.repo.refs[b] in s.repo.manifests)
    && (forall c :: c in s.repo.manifests ==> s.repo.manifests[c] == TreeOf(r0, c))
    && s.repo.fanout == r0.fanout + Queued(s.log)
    && (forall t :: t in s.threads && s.threads[t].pc.Returned? ==>
          Accounted(r0, s.log, s.threads[t].revision, s.threads[t].ops, s.threads[t].pc.answer))
  }

  /** What the lock holder knows while nobody else can write. */
  ghost predicate Informed(r0: Repo, s: State, th: Thread) {
    var rev, ops := th.revision, th.ops;
    match th.pc
    case HasHead(p) => OnHead(s, rev, ops, p)
    case Storing(p, tree, _) => OnHead(s, rev, ops, p) && tree == TreeOf(r0, p)
    case Checking(p, tree, _, missing) => OnHead(s, rev, ops, p) && tree == TreeOf(r0, p) && NamesLFS(ops, missing)
    case Built(p, tree) => OnHead(s, rev, ops, p) && tree == TreeOf(r0, p)
    case WroteManifest(p, c) =>
      OnHead(s, rev, ops, p) && c == Child(p, TreeOf(r0, p), ops) && c in s.repo.manifests
    case WroteRef(c) =>
      s.log != [] && !s.log[|s.log| - 1].queued && Wrote(s.log[|s.log| - 1], rev, ops, c)
    case Releasing(a) => Accounted(r0, s.log, rev, ops, a)
    case _ => true
  }

  predicate OnHead(s: State, rev: string, ops: CommitOps, p: CommitId) {
    rev in s.repo.refs && s.repo.refs[rev] == p && ParentAgrees(ops, p)
  }

  ghost predicate Inv(r0: Repo, s: State) {
    && Serial(r0, s)
    && (forall t :: t in s.threads && s.threads[t].pc.HoldsLock() ==> s.holder == Some(t) && Informed(r0, s, s.threads[t]))
    && (s.holder.Some? ==> s.holder.value in s.threads)
  }

  // ---------------------------------------------------------------- the log grows at its end

  lemma HeadAfterAppend(head0: CommitId, log: seq<Entry>, e: Entry, revision: string)
    ensures HeadAfter(head0, log + [e], revision) ==
            if e.revision == revision then e.head else HeadAfter(head0, log, revision)
  {
    assert (log + [e])[..|log|] == log;
  }

  lemma {:induction false} HeadAfterMarked(head0: CommitId, log: seq<Entry>, revision: string)
    ensures HeadAfter(head0, MarkQueued(log), revision) == HeadAfter(head0, log, revision)
  {
    if log != [] {
      var n := |log| - 1;
      assert MarkQueued(log)[..n] == log[..n];
    }
  }

  lemma ChainedAppend(r0: Repo, log: seq<Entry>, e: Entry)
    requires Chained(r0, log) && e.revision in r0.refs
    requires e.parent == HeadAfter(r0.refs[e.revision], log, e.revision) && ParentAgrees(e.ops, e.parent)
    requires e.head == Child(e.parent, TreeOf(r0, e.parent), e.ops)
    ensures Chained(r0, log + [e])
  {
    hide Child, TreeOf, HeadAfter, ParentAgrees;
    var log' := log + [e];
    forall i | 0 <= i < |log'| ensures log'[..i] == if i < |log| then log[..i] else log {
    }
  }

  lemma ChainedMarked(r0: Repo, log: seq<Entry>)
    requires Chained(r0, log)
    ensures Chained(r0, MarkQueued(log))
  {
    hide Child, TreeOf, HeadAfter, ParentAgrees;
    var log' := MarkQueued(log);
    forall i | 0 <= i < |log'| ensures log'[..i] == log[..i] {
    }
  }

  lemma ExplainedAppend(r0: Repo, log: seq<Entry>, e: Entry, revision: string, ops: CommitOps, c: CommitId)
    requires Explained(r0, log, revision, ops, c)
    ensures Explained(r0, log + [e], revision, ops, c)
  {
    hide Child, TreeOf, HeadAfter, ParentAgrees, Listing, NewTree;
    var log' := log + [e];
    if i :| 0 <= i < |log| && Wrote(log[i], revision, ops, c) {
      assert Wrote(log'[i], revision, ops, c);
    } else {
      var k :| 0 <= k <= |log| && WasNoOp(r0, log, k, revision, ops, c);
      assert log'[..k] == log[..k];
      assert WasNoOp(r0, log', k, revision, ops, c);
    }
  }

  lemma AccountedAppend(r0: Repo, log: seq<Entry>, e: Entry, revision: string, ops: CommitOps, a: Answer)
    requires Accounted(r0, log, revision, ops, a)
    ensures Accounted(r0, log + [e], revision, ops, a)
  {
    hide Explained, HeadAfter, ParentAgrees, IsCommitSHA, NamesLFS;
    if a.Ok? {
      ExplainedAppend(r0, log, e, revision, ops, a.value);
    } else if a.error == Rejected(ParentMismatch) {
      var k :| 0 <= k <= |log| && WasElsewhere(r0, log, k, revision, ops);
      assert (log + [e])[..k] == log[..k];
      assert WasElsewhere(r0, log + [e], k, revision, ops);
    }
  }

  lemma AccountedMarked(r0: Repo, log: seq<Entry>, revision: string, ops: CommitOps, a: Answer)
    requires Accounted(r0, log, revision, ops, a)
    ensures Accounted(r0, MarkQueued(log), revision, ops, a)
  {
    hide Explained, HeadAfter, ParentAgrees, IsCommitSHA, NamesLFS;
    if a.Ok? {
      ExplainedMarked(r0, log, revision, ops, a.value);
    } else if a.error == Rejected(ParentMismatch) {
      var log' := MarkQueued(log);
      var k :| 0 <= k <= |log| && WasElsewhere(r0, log, k, revision, ops);
      if k < |log| || log == [] {
        assert log'[..k] == log[..k];
      } else {
        assert log[..k] == log && log'[..k] == log';
        HeadAfterMarked(r0.refs[revision], log, revision);
      }
      assert WasElsewhere(r0, log', k, revision, ops);
    }
  }

  lemma ExplainedMarked(r0: Repo, log: seq<Entry>, revision: string, ops: CommitOps, c: CommitId)
    requires Explained(r0, log, revision, ops, c)
    ensures Explained(r0, MarkQueued(log), revision, ops, c)
  {
    hide Child, TreeOf, HeadAfter, ParentAgrees, Listing, NewTree;
    var log' := MarkQueued(log);
    if i :| 0 <= i < |log| && Wrote(log[i], revision, ops, c) {
      assert Wrote(log'[i], revision, ops, c);
    } else {
      var k :| 0 <= k <= |log| && WasNoOp(r0, log, k, revision, ops, c);
      if k < |log| || log == [] {
        assert log'[..k] == log[..k];
      } else {
        assert log[..k] == log && log'[..k] == log';
        if revision in r0.refs { HeadAfterMarked(r0.refs[revision], log, revision); }
      }
      assert WasNoOp(r0, log', k, revision, ops, c);
    }
  }

  // ---------------------------------------------------------------- steps keep the invariant

  /** Two states that differ only in one thread's pc and the holder. */
  lemma MoveKeepsInv(r0: Repo, s: State, s': State, t: nat, pc: Pc)
    requires Inv(r0, s) && t in s.threads && s.threads[t].pc.HoldsLock()
    requires s' == At(s, t, pc) && pc.HoldsLock() && Informed(r0, s', s'.threads[t])
    ensures Inv(r0, s')
  {
    hide Chained, HeadAfter, Explained, Refused, TreeOf, Queued, Child, Wrote, ParentAgrees;
  }

  lemma LogStepKeepsInv(r0: Repo, s: State, t: nat)
    requires Inv(r0, s) && t in s.threads && s.threads[t].pc.WroteManifest?
    ensures Inv(r0, Advance(s, t))
  {
    hide Chained, HeadAfter, Explained, Refused, TreeOf, Queued, Child, ParentAgrees, Listing, NewTree;
    var th := s.threads[t];
    var s' := Advance(s, t);
    var e := Entry(th.revision, th.ops, th.pc.parent, th.pc.head, false);
    ChainedAppend(r0, s.log, e);
    QueuedAppend(s.log, e);
    forall b | b in r0.refs
      ensures s'.repo.refs[b] == HeadAfter(r0.refs[b], s'.log, b) && s'.repo.refs[b] in s'.repo.manifests
    {
      HeadAfterAppend(r0.refs[b], s.log, e, b);
    }
    forall u | u in s'.threads && s'.threads[u].pc.Returned?
      ensures Accounted(r0, s'.log, s'.threads[u].revision, s'.threads[u].ops, s'.threads[u].pc.answer)
    {
      AccountedAppend(r0, s.log, e, s.threads[u].revision, s.threads[u].ops, s.threads[u].pc.answer);
    }
  }

  lemma QueuedAppend(log: seq<Entry>, e: Entry)
    ensures Queued(log + [e]) == Queued(log) + if e.queued then [(e.revision, e.head)] else []
  {
    assert (log + [e])[..|log|] == log;
  }

  lemma {:induction false} QueuedMarked(log: seq<Entry>)
    requires log != [] && !log[|log| - 1].queued
    ensures Queued(MarkQueued(log)) == Queued(log) + [(log[|log| - 1].revision, log[|log| - 1].head)]
  {
    var n := |log| - 1;
    assert MarkQueued(log)[..n] == log[..n];
  }

  lemma EnqueueStepKeepsInv(r0: Repo, s: State, t: nat)
    requires Inv(r0, s) && t in s.threads && s.threads[t].pc.WroteRef?
    ensures Inv(r0, Advance(s, t))
  {
    hide Chained, HeadAfter, Explained, Refused, TreeOf, Queued, Child, ParentAgrees, Listing, NewTree;
    var th := s.threads[t];
    var s' := Advance(s, t);
    ChainedMarked(r0, s.log);
    QueuedMarked(s.log);
    forall b | b in r0.refs ensures s'.repo.refs[b] == HeadAfter(r0.refs[b], s'.log, b) {
      HeadAfterMarked(r0.refs[b], s.log, b);
    }
    WroteIsExplained(r0, s.log, th.revision, th.ops, th.pc.head);
    ExplainedMarked(r0, s.log, th.revision, th.ops, th.pc.head);
    forall u | u in s'.threads && s'.threads[u].pc.Returned?
      ensures Accounted(r0, s'.log, s'.threads[u].revision, s'.threads[u].ops, s'.threads[u].pc.answer)
    {
      AccountedMarked(r0, s.log, s.threads[u].revision, s.threads[u].ops, s.threads[u].pc.answer);
    }
  }

  lemma WroteIsExplained(r0: Repo, log: seq<Entry>, revision: string, ops: CommitOps, c: CommitId)
    requires log != [] && Wrote(log[|log| - 1], revision, ops, c)
    ensures Explained(r0, log, revision, ops, c)
  {
  }

  lemma NoOpIsExplained(r0: Repo, s: State, revision: string, ops: CommitOps, c: CommitId)
    requires Serial(r0, s) && OnHead(s, revision, ops, c) && Listing(NewTree(TreeOf(r0, c), ops)) == TreeOf(r0, c)
    ensures Explained(r0, s.log, revision, ops, c)
  {
    hide Chained, HeadAfter, TreeOf, Queued, Listing, NewTree;
    assert s.log[..|s.log|] == s.log;
    assert WasNoOp(r0, s.log, |s.log|, revision, ops, c);
  }

  lemma BuiltStepKeepsInv(r0: Repo, s: State, t: nat)
    requires Inv(r0, s) && t in s.threads && s.threads[t].pc.Built?
    ensures Inv(r0, Advance(s, t))
  {
    hide Chained, HeadAfter, Explained, Refused, Queued, ParentAgrees, Listing, NewTree;
    var th := s.threads[t];
    var c := Child(th.pc.parent, th.pc.tree, th.ops);
    if th.pc.tree == c.tree {
      NoOpIsExplained(r0, s, th.revision, th.ops, th.pc.parent);
    }
  }

  lemma WorkStepKeepsInv(r0: Repo, s: State, t: nat)
    requires Inv(r0, s) && t in s.threads && s.threads[t].pc.HoldsLock() && !s.threads[t].pc.Releasing?
    ensures Inv(r0, Advance(s, t))
  {
    var th := s.threads[t];
    match th.pc {
      case Built(_, _) => BuiltStepKeepsInv(r0, s, t);
      case WroteManifest(_, _) => LogStepKeepsInv(r0, s, t);
      case WroteRef(_) => EnqueueStepKeepsInv(r0, s, t);
      case _ => ReadStepKeepsInv(r0, s, t);
    }
  }

  lemma ReadStepKeepsInv(r0: Repo, s: State, t: nat)
    requires Inv(r0, s) && t in s.threads
    requires s.threads[t].pc.Locked? || s.threads[t].pc.HasHead? || s.threads[t].pc.Storing? || s.threads[t].pc.Checking?
    ensures Inv(r0, Advance(s, t))
  {
    hide Chained, HeadAfter, Explained, Refused, Queued, TreeOf, Child, Listing, NewTree, Inv;
    var th := s.threads[t];
    var s' := Advance(s, t);
    if th.pc.Storing? && th.pc.k < |th.ops.files| {
      StoreStepKeepsInv(r0, s, t);
    } else {
      ReadStepInforms(r0, s, t);
      MoveKeepsInv(r0, s, s', t, s'.threads[t].pc);
    }
  }

  lemma StoreStepKeepsInv(r0: Repo, s: State, t: nat)
    requires Inv(r0, s) && t in s.threads && s.threads[t].pc.Storing? && s.threads[t].pc.k < |s.threads[t].ops.files|
    ensures Inv(r0, Advance(s, t))
  {
    hide Chained, HeadAfter, Explained, Refused, Queued, TreeOf, Child, Listing, NewTree, ParentAgrees;
  }

  lemma ReadStepInforms(r0: Repo, s: State, t: nat)
    requires Inv(r0, s) && t in s.threads
    requires s.threads[t].pc.Locked? || s.threads[t].pc.HasHead? || s.threads[t].pc.Storing? || s.threads[t].pc.Checking?
    requires s.threads[t].pc.Storing? ==> s.threads[t].pc.k >= |s.threads[t].ops.files|
    ensures var s' := Advance(s, t);
            t in s'.threads && s' == At(s, t, s'.threads[t].pc) && s'.threads[t].pc.HoldsLock() &&
            Informed(r0, s', s'.threads[t])
  {
    if s.threads[t].pc.Locked? {
      HeadStepInforms(r0, s, t);
    } else if s.threads[t].pc.Checking? {
      CheckStepInforms(r0, s, t);
    } else {
      hide Chained, HeadAfter, Explained, Refused, Queued, TreeOf, Child, Listing, NewTree, NamesLFS;
      NamesNone(s.threads[t].ops);
    }
  }

  lemma HeadStepInforms(r0: Repo, s: State, t: nat)
    requires Inv(r0, s) && t in s.threads && s.threads[t].pc.Locked?
    ensures var s' := Advance(s, t);
            t in s'.threads && s' == At(s, t, s'.threads[t].pc) && s'.threads[t].pc.HoldsLock() &&
            Informed(r0, s', s'.threads[t])
  {
    RefusalsAccounted(r0, s, s.threads[t].revision, s.threads[t].ops);
    hide Serial, Accounted, Explained, Refused, Queued, TreeOf, Child, Listing, NewTree, NamesLFS;
  }

  lemma CheckStepInforms(r0: Repo, s: State, t: nat)
    requires Inv(r0, s) && t in s.threads && s.threads[t].pc.Checking?
    ensures var s' := Advance(s, t);
            t in s'.threads && s' == At(s, t, s'.threads[t].pc) && s'.threads[t].pc.HoldsLock() &&
            Informed(r0, s', s'.threads[t])
  {
    var th := s.threads[t];
    if th.pc.k < |th.ops.lfsFiles| { NamesOneMore(th.ops, th.pc.missing, th.pc.k); }
    hide Serial, Explained, Queued, TreeOf, Child, Listing, NewTree, NamesLFS, WasElsewhere;
  }

  lemma NamesNone(ops: CommitOps)
    ensures NamesLFS(ops, [])
  {
  }

  lemma NamesOneMore(ops: CommitOps, paths: seq<Path>, k: nat)
    requires NamesLFS(ops, paths) && k < |ops.lfsFiles|
    ensures NamesLFS(ops, paths + [ops.lfsFiles[k].path]) && NamesLFS(ops, paths + [])
  {
    assert paths + [] == paths;
    forall p | p in paths + [ops.lfsFiles[k].path] ensures exists i :: 0 <= i < |ops.lfsFiles| && ops.lfsFiles[i].path == p {
      if p !in paths { assert ops.lfsFiles[k].path == p; }
    }
  }

  /** A missing branch and a named parent that is not the head account for their errors. */
  lemma RefusalsAccounted(r0: Repo, s: State, rev: string, ops: CommitOps)
    requires Serial(r0, s)
    ensures rev !in s.repo.refs ==> Accounted(r0, s.log, rev, ops, Err(Rejected(RevisionNotFound)))
    ensures rev in s.repo.refs && !ParentAgrees(ops, s.repo.refs[rev]) ==>
              Accounted(r0, s.log, rev, ops, Err(Rejected(ParentMismatch)))
  {
    hide Chained, HeadAfter, Explained, Queued, TreeOf, ParentAgrees;
    if rev in s.repo.refs && !ParentAgrees(ops, s.repo.refs[rev]) {
      assert s.log[..|s.log|] == s.log;
      assert WasElsewhere(r0, s.log, |s.log|, rev, ops);
    }
  }

  lemma OtherStepKeepsInv(r0: Repo, s: State, s': State)
    requires Inv(r0, s)
    requires StartStep(s, s') || LockStep(s, s') || FailStep(s, s') || UnlockStep(s, s') || UploadStep(s, s')
    ensures Inv(r0, s')
  {
    hide Chained, HeadAfter, Explained, Queued, TreeOf, Child, ParentAgrees, Listing, NewTree, NamesLFS, WasElsewhere,
         IsCommitSHA;
  }

  lemma StatFailKeepsInv(r0: Repo, s: State, t: nat)
    requires Inv(r0, s) && t in s.threads && CanStat(s.threads[t])
    ensures Inv(r0, StatFailed(s, t))
  {
    hide Chained, HeadAfter, Explained, Refused, Queued, TreeOf, Child, NamesLFS;
    NamesOneMore(s.threads[t].ops, s.threads[t].pc.missing, s.threads[t].pc.k);
    MoveKeepsInv(r0, s, StatFailed(s, t), t, StatFailed(s, t).threads[t].pc);
  }

  lemma EnqueueFailKeepsInv(r0: Repo, s: State, s': State)
    requires Inv(r0, s) && EnqueueFailStep(s, s')
    ensures Inv(r0, s')
  {
    hide Chained, HeadAfter, Explained, Refused, Queued, TreeOf, Child, ParentAgrees;
    var t :| t in s.threads && s.threads[t].pc.WroteRef? && s' == At(s, t, Releasing(Ok(s.threads[t].pc.head)));
    WroteIsExplained(r0, s.log, s.threads[t].revision, s.threads[t].ops, s.threads[t].pc.head);
  }

  lemma NextKeepsInv(r0: Repo, s: State, s': State)
    requires Inv(r0, s) && Next(s, s')
    ensures Inv(r0, s')
  {
    hide Inv, Advance, StartStep, LockStep, FailStep, EnqueueFailStep, UnlockStep, UploadStep, StatFailed, CanStat;
    if StatFailStep(s, s') {
      var t :| t in s.threads && CanStat(s.threads[t]) && s' == StatFailed(s, t);
      StatFailKeepsInv(r0, s, t);
    } else if WorkStep(s, s') {
      var t :| t in s.threads && s.threads[t].pc.HoldsLock() && !s.threads[t].pc.Releasing? && s' == Advance(s, t);
      WorkStepKeepsInv(r0, s, t);
    } else if EnqueueFailStep(s, s') {
      EnqueueFailKeepsInv(r0, s, s');
    } else {
      OtherStepKeepsInv(r0, s, s');
    }
  }

  lemma {:induction false} RunKeepsInv(r0: Repo, trace: seq<State>, i: nat)
    requires Run(r0, trace) && i < |trace|
    ensures Inv(r0, trace[i])
  {
    hide Next;
    if i == 0 {
    } else {
      hide Inv;
      RunKeepsInv(r0, trace, i - 1);
      NextKeepsInv(r0, trace[i - 1], trace[i]);
    }
  }

  // ---------------------------------------------------------------- main results

  /** In any interleaving with failures anywhere: each new head is its caller's operations
      applied to the immediately previous head, answers are explained by the log, and
      fan-out jobs are queued in the order of the heads. */
  lemma EveryRunIsSerial(r0: Repo, trace: seq<State>, i: nat)
    requires Run(r0, trace) && i < |trace|
    ensures Serial(r0, trace[i])
  {
    hide Run, Serial;
    RunKeepsInv(r0, trace, i);
  }

  lemma {:induction false} ReplayOfChain(r0: Repo, log: seq<Entry>, revision: string)
    requires Chained(r0, log) && revision in r0.refs
    ensures TreeOf(r0, HeadAfter(r0.refs[revision], log, revision)) ==
            Replay(TreeOf(r0, r0.refs[revision]), log, revision)
  {
    hide Listing, NewTree, ParentAgrees;
    if log != [] {
      var n := |log| - 1;
      forall i | 0 <= i < n ensures log[..n][i] == log[i] && log[..n][..i] == log[..i] {
      }
      assert Chained(r0, log[..n]);
      ReplayOfChain(r0, log[..n], revision);
      var e := log[n];
    }
  }

  /** No commit's changes are lost: a branch's stored tree is the starting tree with every
      logged commit's operations applied, in order. */
  lemma NoCommitIsLost(r0: Repo, trace: seq<State>, i: nat, revision: string)
    requires Run(r0, trace) && i < |trace| && revision in r0.refs
    ensures var r := trace[i].repo;
            revision in r.refs && r.refs[revision] in r.manifests && r0.refs[revision] in r0.manifests &&
            r.manifests[r.refs[revision]] == Replay(r0.manifests[r0.refs[revision]], trace[i].log, revision)
  {
    hide Next, Chained, HeadAfter, Replay, Explained, Queued, Informed;
    RunKeepsInv(r0, trace, i);
    ReplayOfChain(r0, trace[i].log, revision);
  }

  // ---------------------------------------------------------------- the steps are Commit

  /** The lock holder's next n steps, undisturbed and without failures. */
  ghost function Solo(s: State, t: nat, n: nat): (s': State)
    requires t in s.threads
    ensures t in s'.threads
    decreases n
  {
    if n == 0 then s else Advance(Solo(s, t, n - 1), t)
  }

  lemma {:induction false} SoloAdds(s: State, t: nat, n: nat, m: nat)
    requires t in s.threads
    ensures Solo(s, t, n + m) == Solo(Solo(s, t, n), t, m)
    decreases m
  {
    hide Advance;
    if m > 0 {
      SoloAdds(s, t, n, m - 1);
      assert Solo(s, t, n + m) == Advance(Solo(s, t, n + m - 1), t);
    }
  }

  lemma {:induction false} SoloStays(s: State, t: nat, n: nat)
    requires t in s.threads && s.threads[t].pc.Releasing?
    ensures Solo(s, t, n) == s
  {
    if n > 0 { SoloStays(s, t, n - 1); }
  }

  function FirstDigests(ops: CommitOps, n: nat): set<Digest>
    requires n <= |ops.files|
  {
    set k | 0 <= k < n :: Sha256(ops.files[k].1)
  }

  function Stored(s: State, t: nat, n: nat, p: CommitId, tree: Tree): State
    requires t in s.threads && n <= |s.threads[t].ops.files|
  {
    At(s, t, Storing(p, tree, n)).(repo := s.repo.(blobs := s.repo.blobs + FirstDigests(s.threads[t].ops, n)))
  }

  lemma StoreOne(s: State, t: nat, n: nat, p: CommitId, tree: Tree)
    requires t in s.threads && n < |s.threads[t].ops.files|
    ensures Advance(Stored(s, t, n, p, tree), t) == Stored(s, t, n + 1, p, tree)
  {
    hide Child, NewTree, Listing, MarkQueued;
    var ops, b := s.threads[t].ops, s.repo.blobs;
    assert b + FirstDigests(ops, n + 1) == b + FirstDigests(ops, n) + {Sha256(ops.files[n].1)};
  }

  lemma {:induction false} SoloStores(s: State, t: nat, n: nat, p: CommitId, tree: Tree)
    requires t in s.threads && s.threads[t].pc == Storing(p, tree, 0) && n <= |s.threads[t].ops.files|
    ensures Solo(s, t, n) == Stored(s, t, n, p, tree)
  {
    hide Advance;
    if n > 0 {
      SoloStores(s, t, n - 1, p, tree);
      StoreOne(s, t, n - 1, p, tree);
    } else {
      assert s.repo.blobs + FirstDigests(s.threads[t].ops, 0) == s.repo.blobs;
    }
  }

  function Checked(s: State, t: nat, n: nat, p: CommitId, tree: Tree): State
    requires t in s.threads && n <= |s.threads[t].ops.lfsFiles|
  {
    At(s, t, Checking(p, tree, n, MissingLFS(s.threads[t].ops.lfsFiles[..n], s.repo.blobs)))
  }

  lemma CheckOne(s: State, t: nat, n: nat, p: CommitId, tree: Tree)
    requires t in s.threads && n < |s.threads[t].ops.lfsFiles|
    ensures Advance(Checked(s, t, n, p, tree), t) == Checked(s, t, n + 1, p, tree)
  {
    hide Child, NewTree, Listing, MarkQueued;
    var lfs := s.threads[t].ops.lfsFiles;
    assert lfs[..n + 1][..n] == lfs[..n];
  }

  lemma {:induction false} SoloChecks(s: State, t: nat, n: nat, p: CommitId, tree: Tree)
    requires t in s.threads && s.threads[t].pc == Checking(p, tree, 0, []) && n <= |s.threads[t].ops.lfsFiles|
    ensures Solo(s, t, n) == Checked(s, t, n, p, tree)
  {
    hide Advance;
    if n > 0 {
      SoloChecks(s, t, n - 1, p, tree);
      CheckOne(s, t, n - 1, p, tree);
    }
  }

  /** The state in which the holder has its answer. */
  predicate Finished(s: State, t: nat, repo: Repo, r: Result<CommitId, CommitError>) {
    t in s.threads && s.repo == repo &&
    s.threads[t].pc == Releasing(match r case Ok(c) => Ok(c) case Err(e) => Err(Rejected(e)))
  }

  lemma SoloWrites(s: State, t: nat, p: CommitId, tree: Tree)
    requires t in s.threads && s.threads[t].pc == Built(p, tree)
    ensures var th := s.threads[t];
            var c := Child(p, tree, th.ops);
            var done := Solo(s, t, 3);
            if tree == Listing(NewTree(tree, th.ops)) then Finished(done, t, s.repo, Ok(p))
            else Finished(done, t, s.repo.(manifests := s.repo.manifests[c := c.tree], refs := s.repo.refs[th.revision := c],
                                           fanout := s.repo.fanout + [(th.revision, c)]), Ok(c))
  {
    hide Listing, NewTree, MarkQueued, Solo;
    SoloThree(s, t);
    var th, s1 := s.threads[t], Advance(s, t);
    var c := Child(p, tree, th.ops);
    if s1.threads[t].pc.Releasing? {
      assert Advance(s1, t) == s1;
    } else {
      assert s1.threads[t] == Thread(th.revision, th.ops, WroteManifest(p, c));
      AfterManifest(s1, t);
    }
  }

  lemma AfterManifest(s: State, t: nat)
    requires t in s.threads && s.threads[t].pc.WroteManifest?
    ensures var th := s.threads[t];
            Finished(Advance(Advance(s, t), t), t,
                     s.repo.(refs := s.repo.refs[th.revision := th.pc.head], fanout := s.repo.fanout + [(th.revision, th.pc.head)]),
                     Ok(th.pc.head))
  {
    hide Listing, NewTree, MarkQueued;
    var s1 := Advance(s, t);
    assert s1.threads[t].pc == WroteRef(s.threads[t].pc.head);
  }

  lemma SoloThree(s: State, t: nat)
    requires t in s.threads
    ensures Solo(s, t, 3) == Advance(Advance(Advance(s, t), t), t)
  {
    hide Advance;
    assert Solo(s, t, 1) == Advance(s, t);
    assert Solo(s, t, 2) == Advance(Solo(s, t, 1), t);
  }

  lemma SoloFromChecking(s: State, t: nat, p: CommitId, tree: Tree)
    requires t in s.threads && s.threads[t].pc == Checking(p, tree, 0, [])
    ensures var th := s.threads[t];
            var missing := MissingLFS(th.ops.lfsFiles, s.repo.blobs);
            var c := Child(p, tree, th.ops);
            var done := Solo(s, t, |th.ops.lfsFiles| + 4);
            if missing != [] then Finished(done, t, s.repo, Err(LFSBlobMissing(missing)))
            else if tree == Listing(NewTree(tree, th.ops)) then Finished(done, t, s.repo, Ok(p))
            else Finished(done, t, s.repo.(manifests := s.repo.manifests[c := c.tree], refs := s.repo.refs[th.revision := c],
                                           fanout := s.repo.fanout + [(th.revision, c)]), Ok(c))
  {
    hide Solo, Listing, NewTree, MissingLFS, MarkQueued;
    var n := |s.threads[t].ops.lfsFiles|;
    SoloChecks(s, t, n, p, tree);
    assert s.threads[t].ops.lfsFiles[..n] == s.threads[t].ops.lfsFiles;
    var s1 := Solo(s, t, n);
    var s2 := Advance(s1, t);
    SoloStep(s1, t, 3);
    SoloAdds(s, t, n, 4);
    if s2.threads[t].pc.Releasing? {
      SoloStays(s2, t, 3);
    } else {
      SoloWrites(s2, t, p, tree);
    }
  }

  lemma SoloStep(s: State, t: nat, n: nat)
    requires t in s.threads
    ensures Solo(s, t, n + 1) == Solo(Advance(s, t), t, n)
  {
    SoloAdds(s, t, 1, n);
    hide Advance;
    assert Solo(s, t, 1) == Advance(Solo(s, t, 0), t);
  }

  lemma DigestsAreInline(ops: CommitOps)
    ensures FirstDigests(ops, |ops.files|) == InlineDigests(ops)
  {
  }

  lemma SoloFromStoring(s: State, t: nat, p: CommitId, tree: Tree)
    requires t in s.threads && s.threads[t].pc == Storing(p, tree, 0)
    ensures var th := s.threads[t];
            var repo := s.repo.(blobs := s.repo.blobs + InlineDigests(th.ops));
            var missing := MissingLFS(th.ops.lfsFiles, repo.blobs);
            var c := Child(p, tree, th.ops);
            var done := Solo(s, t, |th.ops.files| + |th.ops.lfsFiles| + 5);
            if missing != [] then Finished(done, t, repo, Err(LFSBlobMissing(missing)))
            else if tree == Listing(NewTree(tree, th.ops)) then Finished(done, t, repo, Ok(p))
            else Finished(done, t, repo.(manifests := repo.manifests[c := c.tree], refs := repo.refs[th.revision := c],
                                         fanout := repo.fanout + [(th.revision, c)]), Ok(c))
  {
    hide Solo, Listing, NewTree, MissingLFS, MarkQueued, InlineDigests, FirstDigests, Finished, Child;
    var n, m := |s.threads[t].ops.files|, |s.threads[t].ops.lfsFiles|;
    SoloStores(s, t, n, p, tree);
    DigestsAreInline(s.threads[t].ops);
    var s1 := Solo(s, t, n);
    SoloStep(s1, t, m + 4);
    SoloAdds(s, t, n, m + 5);
    SoloFromChecking(Advance(s1, t), t, p, tree);
  }

  /** Undisturbed, the steps under the lock do exactly what Commit does. */
  lemma SoloIsCommit(s: State, t: nat)
    requires t in s.threads && s.threads[t].pc.Locked? && !IsCommitSHA(s.threads[t].revision)
    ensures var th := s.threads[t];
            var (repo, r) := CommitOutcome(s.repo, th.revision, th.ops);
            Finished(Solo(s, t, |th.ops.files| + |th.ops.lfsFiles| + 7), t, repo, r)
  {
    hide Solo, Listing, NewTree, MissingLFS, MarkQueued, InlineDigests, IsCommitSHA;
    var th := s.threads[t];
    var n := |th.ops.files| + |th.ops.lfsFiles| + 5;
    var s1 := Advance(s, t);
    SoloStep(s, t, n + 1);
    if s1.threads[t].pc.Releasing? {
      SoloStays(s1, t, n + 1);
    } else {
      SoloStep(s1, t, n);
      var s2 := Advance(s1, t);
      if s2.threads[t].pc.Releasing? {
        SoloStays(s2, t, n);
      } else {
        SoloFromStoring(s2, t, s.repo.refs[th.revision], s.repo.manifests[s.repo.refs[th.revision]]);
      }
    }
  }
}
