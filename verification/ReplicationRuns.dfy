/** The replication queue over whole runs: any number of workers, jobs interrupted between any
    two backend calls, crashes, restarts and retries (internal/replication/replication.go). */
module ReplicationRuns {
  import opened Common
  import opened Replication

  /** Where a worker stands with its job. */
  datatype Pc =
    | Claimed
    | Copying(manifest: Manifest, i: nat)
    | WritingRefs(todo: map<string, Sha>)
    | Finished

  datatype Worker = Worker(job: Job, pc: Pc)

  /** What the queue lock is held for between two of its durable steps. */
  datatype Lock = Free | Adding(job: Job) | Removing(job: Job)

  /** persisted, failed and swallowed are the history: every job ever spooled, in order, the groups
      in which some job has failed, and those in which a failure to remove or to load a spool file
      was swallowed; done counts the removed jobs of a group. */
  datatype State = State(
    now: int,
    jobs: map<Id, Job>,
    inflight: set<Group>,
    lock: Lock,
    workers: map<nat, Worker>,
    spool: map<Id, Job>,
    stores: Group -> Store,
    persisted: seq<Job>,
    failed: set<Group>,
    swallowed: set<Group>,
    done: Group -> int)

  function SetStore(s: State, g: Group, store: Store): State {
    s.(stores := (h: Group) => if h == g then store else s.stores(h))
  }

  function At(s: State, w: nat, pc: Pc): State
    requires w in s.workers
  {
    s.(workers := s.workers[w := s.workers[w].(pc := pc)])
  }

  // ---------------------------------------------------------------- steps

  ghost predicate TickStep(s: State, s': State) {
    exists now :: now >= s.now && s' == s.(now := now)
  }

  /** enqueue spools the job under a fresh random id, ... */
  ghost predicate PersistStep(s: State, s': State) {
    exists id, action, group, source ::
      s.lock.Free? && Fresh(s, id) && s' == Persisted(s, NewJob(id, action, group, source, s.now))
  }

  ghost predicate Fresh(s: State, id: Id) {
    id !in s.spool && forall k :: 0 <= k < |s.persisted| ==> s.persisted[k].id != id
  }

  function Persisted(s: State, job: Job): State {
    s.(lock := Adding(job), spool := s.spool[job.id := job], persisted := s.persisted + [job])
  }

  /** ... and then adds it to the jobs in memory. */
  ghost predicate AddStep(s: State, s': State) {
    s.lock.Adding? && s' == Added(s, s.lock.job)
  }

  function Added(s: State, job: Job): State {
    s.(lock := Free, jobs := s.jobs[job.id := job])
  }

  ghost predicate ClaimStep(s: State, s': State) {
    exists w: nat, job ::
      s.lock.Free? && w !in s.workers && OldestDue(s.jobs, s.inflight, s.now, job) &&
      s' == ClaimedBy(s, w, job)
  }

  function ClaimedBy(s: State, w: nat, job: Job): State {
    s.(inflight := s.inflight + {job.group}, workers := s.workers[w := Worker(job, Claimed)])
  }

  /** The next backend call of a worker. The source answers with any manifest. */
  ghost predicate WorkStep(s: State, s': State) {
    exists w, m :: w in s.workers && s' == Work(s, w, m)
  }

  function Work(s: State, w: nat, m: Manifest): State
    requires w in s.workers
  {
    var job := s.workers[w].job;
    var g, store := job.group, s.stores(job.group);
    match s.workers[w].pc
    case Claimed =>
      if job.action.DeleteRepo? then SetStore(At(s, w, Finished), g, EMPTY) else At(s, w, Copying(m, 0))
    case Copying(files, i) =>
      if !job.action.CopyCommit? then s
      else if i < |files| then
        var blobs := if files[i].digest.Some? then store.blobs + {files[i].digest.value} else store.blobs;
        SetStore(At(s, w, Copying(files, i + 1)), g, store.(blobs := blobs))
      else SetStore(At(s, w, WritingRefs(job.action.refs)), g, store.(manifests := store.manifests[job.action.sha := files]))
    case WritingRefs(todo) => if todo == map[] then At(s, w, Finished) else s
    case Finished => s
  }

  /** PutManifest updates one ref after the other, in any order. */
  ghost predicate RefStep(s: State, s': State) {
    exists w, r ::
      w in s.workers && s.workers[w].pc.WritingRefs? && r in s.workers[w].pc.todo && s' == WriteRef(s, w, r)
  }

  function WriteRef(s: State, w: nat, r: string): State
    requires w in s.workers && s.workers[w].pc.WritingRefs? && r in s.workers[w].pc.todo
  {
    var g, todo := s.workers[w].job.group, s.workers[w].pc.todo;
    SetStore(At(s, w, WritingRefs(todo - {r})), g, s.stores(g).(refs := s.stores(g).refs[r := todo[r]]))
  }

  /** execute ends well: the job leaves memory, ... */
  ghost predicate DoneStep(s: State, s': State) {
    exists w :: w in s.workers && s.lock.Free? && s.workers[w].pc.Finished? && s' == Completed(s, w)
  }

  function Completed(s: State, w: nat): State
    requires w in s.workers
  {
    var job := s.workers[w].job;
    s.(inflight := s.inflight - {job.group}, workers := s.workers - {w}, jobs := s.jobs - {job.id}, lock := Removing(job))
  }

  /** ... and then its spool file goes. */
  ghost predicate RemoveStep(s: State, s': State) {
    s.lock.Removing? && s' == Removed(s, s.lock.job)
  }

  function Removed(s: State, job: Job): State {
    s.(lock := Free, spool := s.spool - {job.id}, done := (h: Group) => if h == job.group then s.done(h) + 1 else s.done(h))
  }

  /** The file cannot be removed: that is logged, and the job is over all the same. */
  ghost predicate KeepStep(s: State, s': State) {
    s.lock.Removing? && s' == Kept(s, s.lock.job)
  }

  function Kept(s: State, job: Job): State {
    s.(lock := Free, swallowed := s.swallowed + {job.group})
  }

  /** A backend call fails; the file may or may not be rewritten. */
  ghost predicate FailStep(s: State, s': State) {
    exists w, maxBackoff, written: bool :: w in s.workers && s.lock.Free? && s' == FailedAt(s, w, maxBackoff, written)
  }

  function FailedAt(s: State, w: nat, maxBackoff: int, written: bool): State
    requires w in s.workers
  {
    var job := s.workers[w].job;
    var job' := AfterFailure(job, s.now, maxBackoff);
    s.(inflight := s.inflight - {job.group}, workers := s.workers - {w}, jobs := s.jobs[job.id := job'],
       spool := if written then s.spool[job.id := job'] else s.spool, failed := s.failed + {job.group})
  }

  /** The process is shutting down: a claim is given back, or a job stops part-way untouched. */
  ghost predicate ReleaseStep(s: State, s': State) {
    exists w :: w in s.workers && s.lock.Free? && s' == Released(s, w)
  }

  function Released(s: State, w: nat): State
    requires w in s.workers
  {
    s.(inflight := s.inflight - {s.workers[w].job.group}, workers := s.workers - {w})
  }

  ghost predicate RetryStep(s: State, s': State) {
    s.lock.Free? && s' == AllKicked(s)
  }

  function AllKicked(s: State): State {
    s.(jobs := map id | id in s.jobs :: Kicked(s.jobs[id], s.now))
  }

  /** The process dies anywhere and another one loads the spool, passing over the files it
      cannot read. */
  ghost predicate CrashStep(s: State, s': State) {
    exists now, unread :: now >= s.now && s' == Restarted(s, now, unread)
  }

  function Restarted(s: State, now: int, unread: set<Id>): State {
    s.(now := now, jobs := map id | id in s.spool && id !in unread :: s.spool[id].(nextTry := now), inflight := {}, lock := Free,
       workers := map[], swallowed := s.swallowed + set id | id in s.spool && id in unread :: s.spool[id].group)
  }

  ghost predicate Next(s: State, s': State) {
    TickStep(s, s') || PersistStep(s, s') || AddStep(s, s') || ClaimStep(s, s') || WorkStep(s, s') || RefStep(s, s') ||
    DoneStep(s, s') || RemoveStep(s, s') || KeepStep(s, s') || FailStep(s, s') || ReleaseStep(s, s') || RetryStep(s, s') ||
    CrashStep(s, s')
  }

  ghost predicate Start(stores: Group -> Store, s: State) {
    s == State(s.now, map[], {}, Free, map[], map[], stores, [], {}, {}, s.done) && (forall g: Group :: s.done(g) == 0) &&
    forall g: Group :: Complete(stores(g))
  }

  ghost predicate Run(stores: Group -> Store, trace: seq<State>) {
    && trace != [] && Start(stores, trace[0])
    && forall i :: 0 <= i < |trace| - 1 ==> Next(trace[i], trace[i + 1])
  }

  // ---------------------------------------------------------------- invariants

  /** Every blob a stored manifest lists is there. */
  ghost predicate Complete(store: Store) {
    forall sha :: sha in store.manifests ==> Digests(store.manifests[sha]) <= store.blobs
  }

  predicate SameJob(a: Job, b: Job) {
    a.id == b.id && a.action == b.action && a.group == b.group && a.source == b.source && a.createdAt == b.createdAt
  }

  /** At most one worker per group, and exactly the groups in flight have one. */
  ghost predicate Exclusive(s: State) {
    && (forall w :: w in s.workers ==> s.workers[w].job.group in s.inflight)
    && (forall w, v :: w in s.workers && v in s.workers && w != v ==> s.workers[w].job.group != s.workers[v].job.group)
    && (forall g :: g in s.inflight ==> exists w :: w in s.workers && s.workers[w].job.group == g)
  }

  /** Jobs in memory are the spooled ones, up to the one the lock is held for and files whose
      removal or loading failed; a job that never failed is due. */
  ghost predicate Tracked(s: State) {
    JobsTracked(s) && WorkersTracked(s) && LockTracked(s)
  }

  ghost predicate JobsTracked(s: State) {
    && (forall id :: id in s.spool ==> s.spool[id].id == id)
    && (forall id :: id in s.jobs ==>
          id in s.spool && SameJob(s.jobs[id], s.spool[id]) && (s.jobs[id].attempts == 0 ==> s.jobs[id].nextTry <= s.now))
    && (forall id :: id in s.spool && id !in s.jobs ==>
          s.spool[id].group in s.swallowed || (!s.lock.Free? && s.lock.job.id == id))
  }

  ghost predicate WorkersTracked(s: State) {
    forall w :: w in s.workers ==>
      var job := s.workers[w].job;
      job.id in s.jobs && s.jobs[job.id] == job && job.nextTry <= s.now
  }

  ghost predicate LockTracked(s: State) {
    && (!s.lock.Free? ==>
          s.lock.job.id in s.spool && s.lock.job.id !in s.jobs && SameJob(s.lock.job, s.spool[s.lock.job.id]))
    && (s.lock.Adding? ==> s.lock.job.attempts == 0 && s.lock.job.nextTry <= s.now)
  }

  /** The steps that leave the queue alone: a worker moves on, or its replica changes. */
  ghost predicate SameQueue(s: State, s': State) {
    && s'.now == s.now && s'.jobs == s.jobs && s'.inflight == s.inflight && s'.lock == s.lock && s'.spool == s.spool
    && s'.persisted == s.persisted && s'.failed == s.failed && s'.swallowed == s.swallowed && s'.done == s.done
    && s'.workers.Keys == s.workers.Keys
    && forall w :: w in s.workers ==> s'.workers[w].job == s.workers[w].job
  }

  lemma WorkKeepsQueue(s: State, w: nat, m: Manifest)
    requires w in s.workers
    ensures SameQueue(s, Work(s, w, m))
  {
  }

  lemma WriteRefKeepsQueue(s: State, w: nat, r: string)
    requires w in s.workers && s.workers[w].pc.WritingRefs? && r in s.workers[w].pc.todo
    ensures SameQueue(s, WriteRef(s, w, r))
  {
  }

  lemma SameQueueKeepsTracked(s: State, s': State)
    requires SameQueue(s, s') && Tracked(s) && Exclusive(s)
    ensures Tracked(s') && Exclusive(s')
  {
    hide SameJob;
    forall g | g in s'.inflight ensures exists w :: w in s'.workers && s'.workers[w].job.group == g {
      var w :| w in s.workers && s.workers[w].job.group == g;
      assert s'.workers[w].job.group == g;
    }
  }

  lemma TickKeepsTracked(s: State, now: int)
    requires Tracked(s) && now >= s.now
    ensures Tracked(s.(now := now))
  {
    hide SameJob;
  }

  lemma PersistKeepsTracked(s: State, job: Job)
    requires Tracked(s) && s.lock.Free? && job.id !in s.spool && job.attempts == 0 && job.nextTry <= s.now
    ensures Tracked(Persisted(s, job))
  {
  }

  lemma AddKeepsTracked(s: State)
    requires Tracked(s) && s.lock.Adding?
    ensures Tracked(Added(s, s.lock.job))
  {
    hide SameJob;
  }

  lemma KickKeepsTracked(s: State)
    requires Tracked(s) && s.lock.Free?
    ensures Tracked(AllKicked(s))
  {
  }

  lemma RestartKeepsTracked(s: State, now: int, unread: set<Id>)
    requires Tracked(s) && now >= s.now
    ensures Tracked(Restarted(s, now, unread))
  {
  }

  lemma ClaimKeepsTracked(s: State, w: nat, job: Job)
    requires Tracked(s) && OldestDue(s.jobs, s.inflight, s.now, job) && w !in s.workers
    ensures Tracked(ClaimedBy(s, w, job))
  {
    hide SameJob;
    var id :| Claimable(s.jobs, s.inflight, s.now, id) && s.jobs[id] == job;
    assert s.spool[id].id == id && SameJob(s.jobs[id], s.spool[id]);
    SameJobId(s.jobs[id], s.spool[id]);
  }

  lemma SameJobId(a: Job, b: Job)
    requires SameJob(a, b)
    ensures a.id == b.id && a.group == b.group
  {
  }

  lemma CompleteKeepsTracked(s: State, w: nat)
    requires Tracked(s) && Exclusive(s) && w in s.workers && s.lock.Free?
    ensures Tracked(Completed(s, w))
  {
    hide SameJob;
    var job := s.workers[w].job;
    forall v | v in s.workers && v != w ensures s.workers[v].job.id != job.id {
      assert s.jobs[s.workers[v].job.id] == s.workers[v].job;
    }
  }

  lemma RemoveKeepsTracked(s: State)
    requires Tracked(s) && s.lock.Removing?
    ensures Tracked(Removed(s, s.lock.job))
  {
    hide SameJob;
  }

  lemma KeepKeepsTracked(s: State)
    requires Tracked(s) && s.lock.Removing?
    ensures Tracked(Kept(s, s.lock.job))
  {
    var id := s.lock.job.id;
    assert id in s.spool && s.spool[id].group == s.lock.job.group;
    hide SameJob;
  }

  lemma FailedJob(job: Job, file: Job, now: int, maxBackoff: int)
    requires SameJob(job, file)
    ensures var job' := AfterFailure(job, now, maxBackoff);
            job'.id == job.id && job'.attempts > 0 && SameJob(job', file) && SameJob(job', job')
  {
  }

  lemma FailKeepsTracked(s: State, w: nat, maxBackoff: int, written: bool)
    requires Tracked(s) && Exclusive(s) && w in s.workers && s.lock.Free?
    ensures Tracked(FailedAt(s, w, maxBackoff, written))
  {
    FailKeepsJobs(s, w, maxBackoff, written);
    hide JobsTracked, AfterFailure;
    var job := s.workers[w].job;
    forall v | v in s.workers && v != w ensures s.workers[v].job.id != job.id {
      assert s.jobs[s.workers[v].job.id] == s.workers[v].job;
    }
  }

  lemma FailKeepsJobs(s: State, w: nat, maxBackoff: int, written: bool)
    requires JobsTracked(s) && WorkersTracked(s) && w in s.workers && s.lock.Free?
    ensures JobsTracked(FailedAt(s, w, maxBackoff, written))
  {
    var job := s.workers[w].job;
    FailedJob(job, s.spool[job.id], s.now, maxBackoff);
    hide AfterFailure, SameJob;
  }

  lemma ReleaseKeepsTracked(s: State, w: nat)
    requires Tracked(s) && w in s.workers
    ensures Tracked(Released(s, w))
  {
    hide SameJob;
  }

  lemma ClaimKeepsExclusive(s: State, w: nat, job: Job)
    requires Exclusive(s) && w !in s.workers && job.group !in s.inflight
    ensures Exclusive(ClaimedBy(s, w, job))
  {
    var s' := ClaimedBy(s, w, job);
    forall g | g in s'.inflight ensures exists v :: v in s'.workers && s'.workers[v].job.group == g {
      if g == job.group {
        assert s'.workers[w].job.group == g;
      } else {
        var v :| v in s.workers && s.workers[v].job.group == g;
        assert s'.workers[v].job.group == g;
      }
    }
  }

  /** A worker leaves and its group becomes idle. */
  lemma LeaveKeepsExclusive(s: State, s': State, w: nat)
    requires Exclusive(s) && w in s.workers
    requires s'.workers == s.workers - {w} && s'.inflight == s.inflight - {s.workers[w].job.group}
    ensures Exclusive(s')
  {
    forall g | g in s'.inflight ensures exists v :: v in s'.workers && s'.workers[v].job.group == g {
      var v :| v in s.workers && s.workers[v].job.group == g;
      assert s'.workers[v].job.group == g;
    }
  }

  lemma IdleKeepsExclusive(s: State, s': State)
    requires Exclusive(s) && s'.workers == s.workers && s'.inflight == s.inflight
    ensures Exclusive(s')
  {
  }

  ghost predicate QueueOk(s: State) {
    Exclusive(s) && Tracked(s)
  }

  lemma OldestDueIsIdle(s: State, job: Job)
    requires OldestDue(s.jobs, s.inflight, s.now, job)
    ensures job.group !in s.inflight
  {
  }

  lemma LockedStepsKeepQueueOk(s: State, s': State)
    requires QueueOk(s)
    requires TickStep(s, s') || PersistStep(s, s') || AddStep(s, s') || RemoveStep(s, s') || KeepStep(s, s') || RetryStep(s, s') ||
             CrashStep(s, s')
    ensures QueueOk(s')
  {
    hide Tracked, Exclusive, AllKicked, Restarted, OldestDue, Fresh;
    if TickStep(s, s') {
      TickKeepsTracked(s, s'.now);
      IdleKeepsExclusive(s, s');
    } else if PersistStep(s, s') {
      var id, action, group, source :|
        s.lock.Free? && Fresh(s, id) && s' == Persisted(s, NewJob(id, action, group, source, s.now));
      assert id !in s.spool by { FreshIsNew(s, id); }
      PersistKeepsTracked(s, NewJob(id, action, group, source, s.now));
      IdleKeepsExclusive(s, s');
    } else if AddStep(s, s') {
      AddKeepsTracked(s);
      IdleKeepsExclusive(s, s');
    } else if RemoveStep(s, s') {
      RemoveKeepsTracked(s);
      IdleKeepsExclusive(s, s');
    } else if KeepStep(s, s') {
      KeepKeepsTracked(s);
      IdleKeepsExclusive(s, s');
    } else if RetryStep(s, s') {
      KickKeepsTracked(s);
      KickKeepsWorkers(s);
      IdleKeepsExclusive(s, s');
    } else {
      var now, unread :| now >= s.now && s' == Restarted(s, now, unread);
      RestartKeepsTracked(s, now, unread);
      RestartIsExclusive(s, now, unread);
    }
  }

  lemma FreshIsNew(s: State, id: Id)
    requires Fresh(s, id)
    ensures id !in s.spool
  {
  }

  lemma KickKeepsWorkers(s: State)
    ensures AllKicked(s).workers == s.workers && AllKicked(s).inflight == s.inflight
  {
  }

  lemma RestartIsExclusive(s: State, now: int, unread: set<Id>)
    ensures Exclusive(Restarted(s, now, unread)) && Restarted(s, now, unread).now == now
  {
  }

  lemma WorkerStepsKeepQueueOk(s: State, s': State)
    requires QueueOk(s)
    requires ClaimStep(s, s') || WorkStep(s, s') || RefStep(s, s') || DoneStep(s, s') || FailStep(s, s') || ReleaseStep(s, s')
    ensures QueueOk(s')
  {
    hide Tracked, Exclusive, OldestDue, SameQueue, Work, WriteRef, AfterFailure;
    if ClaimStep(s, s') {
      var w: nat, job :|
        s.lock.Free? && w !in s.workers && OldestDue(s.jobs, s.inflight, s.now, job) && s' == ClaimedBy(s, w, job);
      ClaimKeepsTracked(s, w, job);
      OldestDueIsIdle(s, job);
      ClaimKeepsExclusive(s, w, job);
    } else if WorkStep(s, s') {
      var w, m :| w in s.workers && s' == Work(s, w, m);
      WorkKeepsQueue(s, w, m);
      SameQueueKeepsTracked(s, s');
    } else if RefStep(s, s') {
      var w, r :| w in s.workers && s.workers[w].pc.WritingRefs? && r in s.workers[w].pc.todo && s' == WriteRef(s, w, r);
      WriteRefKeepsQueue(s, w, r);
      SameQueueKeepsTracked(s, s');
    } else if DoneStep(s, s') {
      var w :| w in s.workers && s.lock.Free? && s.workers[w].pc.Finished? && s' == Completed(s, w);
      CompleteKeepsTracked(s, w);
      LeaveKeepsExclusive(s, s', w);
    } else if FailStep(s, s') {
      var w, maxBackoff, written: bool :| w in s.workers && s.lock.Free? && s' == FailedAt(s, w, maxBackoff, written);
      FailKeepsTracked(s, w, maxBackoff, written);
      LeaveKeepsExclusive(s, s', w);
    } else {
      var w :| w in s.workers && s.lock.Free? && s' == Released(s, w);
      ReleaseKeepsTracked(s, w);
      LeaveKeepsExclusive(s, s', w);
    }
  }

  // ---------------------------------------------------------------- blobs before manifests

  /** Replicas are complete, and a worker has already copied the files behind it. */
  ghost predicate Copied(s: State) {
    && (forall g: Group :: Complete(s.stores(g)))
    && (forall w :: w in s.workers ==> CopiedSoFar(s.workers[w], s.stores(s.workers[w].job.group)))
  }

  ghost predicate CopiedSoFar(worker: Worker, store: Store) {
    worker.pc.Copying? ==>
      worker.pc.i <= |worker.pc.manifest| && Digests(worker.pc.manifest[..worker.pc.i]) <= store.blobs
  }

  lemma DigestsGrow(m: Manifest, i: nat)
    requires i < |m|
    ensures Digests(m[..i + 1]) == Digests(m[..i]) + if m[i].digest.Some? then {m[i].digest.value} else {}
  {
    forall d | d in Digests(m[..i]) ensures d in Digests(m[..i + 1]) {
      var k :| 0 <= k < i && m[..i][k].digest == Some(d);
      assert m[..i + 1][k] == m[k];
    }
    if m[i].digest.Some? {
      assert m[..i + 1][i] == m[i];
    }
    forall d | d in Digests(m[..i + 1]) && m[i].digest != Some(d) ensures d in Digests(m[..i]) {
      var k :| 0 <= k < i + 1 && m[..i + 1][k].digest == Some(d);
      assert k < i && m[..i][k] == m[k];
    }
  }

  /** The worker's own replica after its next call. */
  lemma WorkKeepsItsCopy(s: State, w: nat, m: Manifest)
    requires w in s.workers && Complete(s.stores(s.workers[w].job.group))
    requires CopiedSoFar(s.workers[w], s.stores(s.workers[w].job.group))
    ensures var s' := Work(s, w, m);
            w in s'.workers && Complete(s'.stores(s.workers[w].job.group)) &&
            CopiedSoFar(s'.workers[w], s'.stores(s.workers[w].job.group))
  {
    hide Digests;
    var pc := s.workers[w].pc;
    if pc.Copying? {
      if pc.i < |pc.manifest| {
        DigestsGrow(pc.manifest, pc.i);
      } else {
        assert pc.manifest[..pc.i] == pc.manifest;
      }
    } else {
      assert Digests(m[..0]) == {} by { NoDigests(m); }
    }
  }

  lemma NoDigests(m: Manifest)
    ensures Digests(m[..0]) == {}
  {
  }

  /** A worker's call touches its own pc and its own group's replica. */
  lemma WorkIsLocal(s: State, w: nat, m: Manifest)
    requires w in s.workers
    ensures var s' := Work(s, w, m);
            s'.workers.Keys == s.workers.Keys && (forall v :: v in s.workers && v != w ==> s'.workers[v] == s.workers[v]) &&
            s'.workers[w].job == s.workers[w].job &&
            forall g: Group :: g != s.workers[w].job.group ==> s'.stores(g) == s.stores(g)
  {
  }

  lemma WorkKeepsCopied(s: State, w: nat, m: Manifest)
    requires Copied(s) && Exclusive(s) && w in s.workers
    ensures Copied(Work(s, w, m))
  {
    WorkKeepsItsCopy(s, w, m);
    WorkIsLocal(s, w, m);
    hide Work, Complete, CopiedSoFar;
    var s' := Work(s, w, m);
    forall g: Group ensures Complete(s'.stores(g)) {
      if g != s.workers[w].job.group { assert s'.stores(g) == s.stores(g); }
    }
  }

  lemma WriteRefKeepsCopied(s: State, w: nat, r: string)
    requires Copied(s) && w in s.workers && s.workers[w].pc.WritingRefs? && r in s.workers[w].pc.todo
    ensures Copied(WriteRef(s, w, r))
  {
    hide Digests;
    var s' := WriteRef(s, w, r);
    forall g: Group ensures Complete(s'.stores(g)) {
      assert s'.stores(g).blobs == s.stores(g).blobs && s'.stores(g).manifests == s.stores(g).manifests;
    }
  }

  /** The replicas stay as they are, and a new worker has only just claimed its job. */
  ghost predicate SameStores(s: State, s': State) {
    s'.stores == s.stores &&
    forall v :: v in s'.workers ==> (v in s.workers && s'.workers[v] == s.workers[v]) || s'.workers[v].pc.Claimed?
  }

  lemma OtherStepsKeepStores(s: State, s': State)
    requires Next(s, s') && !WorkStep(s, s') && !RefStep(s, s')
    ensures SameStores(s, s')
  {
    hide Complete, OldestDue, Fresh, AfterFailure, Kicked, WorkStep, RefStep;
  }

  lemma SameStoresKeepCopied(s: State, s': State)
    requires Copied(s) && SameStores(s, s')
    ensures Copied(s')
  {
    hide Complete, Digests;
  }

  lemma NextKeepsCopied(s: State, s': State)
    requires Copied(s) && Exclusive(s) && Next(s, s')
    ensures Copied(s')
  {
    hide Copied, Exclusive, Next, Work, WriteRef;
    if WorkStep(s, s') {
      var w, m :| w in s.workers && s' == Work(s, w, m);
      WorkKeepsCopied(s, w, m);
    } else if RefStep(s, s') {
      var w, r :| w in s.workers && s.workers[w].pc.WritingRefs? && r in s.workers[w].pc.todo && s' == WriteRef(s, w, r);
      WriteRefKeepsCopied(s, w, r);
    } else {
      OtherStepsKeepStores(s, s');
      SameStoresKeepCopied(s, s');
    }
  }

  lemma NextKeepsQueueOk(s: State, s': State)
    requires QueueOk(s) && Next(s, s')
    ensures QueueOk(s')
  {
    hide QueueOk, TickStep, PersistStep, AddStep, RemoveStep, KeepStep, RetryStep, CrashStep, ClaimStep, WorkStep, RefStep, DoneStep,
         FailStep, ReleaseStep;
    if TickStep(s, s') || PersistStep(s, s') || AddStep(s, s') || RemoveStep(s, s') || KeepStep(s, s') || RetryStep(s, s') ||
       CrashStep(s, s') {
      LockedStepsKeepQueueOk(s, s');
    } else {
      WorkerStepsKeepQueueOk(s, s');
    }
  }

  lemma {:induction false} RunKeepsQueue(stores: Group -> Store, trace: seq<State>, i: nat)
    requires Run(stores, trace) && i < |trace|
    ensures QueueOk(trace[i]) && Copied(trace[i])
  {
    if i > 0 {
      hide Start, QueueOk, Copied, Next;
      RunKeepsQueue(stores, trace, i - 1);
      assert Next(trace[i - 1], trace[i]);
      NextKeepsQueueOk(trace[i - 1], trace[i]);
      assert Exclusive(trace[i - 1]) by { QueueOkIsExclusive(trace[i - 1]); }
      NextKeepsCopied(trace[i - 1], trace[i]);
    }
  }

  lemma QueueOkIsExclusive(s: State)
    requires QueueOk(s)
    ensures Exclusive(s)
  {
  }

  // ---------------------------------------------------------------- the steps are the job

  /** One backend call of the worker. */
  ghost predicate OwnMove(s: State, s': State, w: nat) {
    w in s.workers &&
    ((exists m :: s' == Work(s, w, m)) ||
     (exists r :: s.workers[w].pc.WritingRefs? && r in s.workers[w].pc.todo && s' == WriteRef(s, w, r)))
  }

  ghost predicate OwnMoves(path: seq<State>, w: nat) {
    path != [] && forall i :: 0 <= i < |path| - 1 ==> OwnMove(path[i], path[i + 1], w)
  }

  lemma MoreMoves(path: seq<State>, w: nat, s: State) returns (path': seq<State>)
    requires OwnMoves(path, w) && OwnMove(path[|path| - 1], s, w)
    ensures OwnMoves(path', w) && path'[0] == path[0] && path'[|path'| - 1] == s
  {
    hide OwnMove;
    path' := path + [s];
  }

  /** The worker has come to pc and its replica to store; nothing else has moved. */
  ghost predicate MovedTo(s: State, s': State, w: nat, pc: Pc, store: Store) {
    w in s.workers && SameQueue(s, s') && s'.workers == s.workers[w := Worker(s.workers[w].job, pc)] &&
    s'.stores(s.workers[w].job.group) == store &&
    forall g: Group :: g != s.workers[w].job.group ==> s'.stores(g) == s.stores(g)
  }

  lemma MovedThrough(s: State, s': State, s'': State, w: nat, pc: Pc, store: Store)
    requires exists pc', store' :: MovedTo(s, s', w, pc', store')
    requires MovedTo(s', s'', w, pc, store)
    ensures MovedTo(s, s'', w, pc, store)
  {
  }

  /** The first n files copied one after the other. */
  lemma {:induction false} CopyMoves(path: seq<State>, w: nat, files: Manifest, n: nat) returns (path': seq<State>)
    requires OwnMoves(path, w) && n <= |files|
    requires var s := path[|path| - 1];
             w in s.workers && s.workers[w].job.action.CopyCommit? && s.workers[w].pc == Copying(files, 0)
    ensures OwnMoves(path', w) && path' != [] && path'[0] == path[0]
    ensures var s := path[|path| - 1];
            var store := s.stores(s.workers[w].job.group);
            MovedTo(s, path'[|path'| - 1], w, Copying(files, n), store.(blobs := store.blobs + Digests(files[..n])))
    decreases n
  {
    hide OwnMove, SameJob;
    var s := path[|path| - 1];
    if n == 0 {
      path' := path;
      NoDigests(files);
      assert MovedTo(s, s, w, Copying(files, 0), s.stores(s.workers[w].job.group)) by { StaysPut(s, w); }
      assert s.stores(s.workers[w].job.group).blobs + Digests(files[..0]) == s.stores(s.workers[w].job.group).blobs;
    } else {
      path' := CopyMoves(path, w, files, n - 1);
      var s1 := path'[|path'| - 1];
      var s2 := Work(s1, w, []);
      assert OwnMove(s1, s2, w) by { WorkMoves(s1, w, []); }
      path' := MoreMoves(path', w, s2);
      DigestsGrow(files, n - 1);
      hide Digests;
      var store := s.stores(s.workers[w].job.group);
      assert store.blobs + Digests(files[..n - 1]) + (if files[n - 1].digest.Some? then {files[n - 1].digest.value} else {}) ==
             store.blobs + Digests(files[..n]);
      CopyOne(s1, w, files, n - 1);
      MovedThrough(s, s1, s2, w, Copying(files, n), store.(blobs := store.blobs + Digests(files[..n])));
    }
  }

  lemma WorkMoves(s: State, w: nat, m: Manifest)
    requires w in s.workers
    ensures OwnMove(s, Work(s, w, m), w)
  {
    hide Work;
  }

  lemma StaysPut(s: State, w: nat)
    requires w in s.workers
    ensures MovedTo(s, s, w, s.workers[w].pc, s.stores(s.workers[w].job.group))
  {
  }

  lemma CopyOne(s: State, w: nat, files: Manifest, i: nat)
    requires w in s.workers && s.workers[w].job.action.CopyCommit? && s.workers[w].pc == Copying(files, i) && i < |files|
    ensures var store := s.stores(s.workers[w].job.group);
            MovedTo(s, Work(s, w, []), w, Copying(files, i + 1),
                    store.(blobs := store.blobs + if files[i].digest.Some? then {files[i].digest.value} else {}))
  {
    var store := s.stores(s.workers[w].job.group);
    assert store.blobs + {} == store.blobs;
  }

  /** The refs written one after the other. */
  lemma {:induction false} RefMoves(path: seq<State>, w: nat) returns (path': seq<State>)
    requires OwnMoves(path, w)
    requires var s := path[|path| - 1];
             w in s.workers && s.workers[w].pc.WritingRefs?
    ensures OwnMoves(path', w) && path' != [] && path'[0] == path[0]
    ensures var s := path[|path| - 1];
            var store := s.stores(s.workers[w].job.group);
            MovedTo(s, path'[|path'| - 1], w, Finished, store.(refs := store.refs + s.workers[w].pc.todo))
    decreases path[|path| - 1].workers[w].pc.todo.Keys
  {
    hide OwnMove;
    var s := path[|path| - 1];
    var todo, store := s.workers[w].pc.todo, s.stores(s.workers[w].job.group);
    if todo == map[] {
      WorkMoves(s, w, []);
      path' := MoreMoves(path, w, Work(s, w, []));
      assert store.refs + todo == store.refs;
    } else {
      var r :| r in todo;
      var s1 := WriteRef(s, w, r);
      assert OwnMove(s, s1, w) by { RefMove(s, w, r); }
      path' := MoreMoves(path, w, s1);
      assert (todo - {r}).Keys == todo.Keys - {r};
      path' := RefMoves(path', w);
      RefWritten(s, w, r);
      assert store.refs[r := todo[r]] + (todo - {r}) == store.refs + todo;
      hide WriteRef;
      MovedThrough(s, s1, path'[|path'| - 1], w, Finished, store.(refs := store.refs + todo));
    }
  }

  lemma RefMove(s: State, w: nat, r: string)
    requires w in s.workers && s.workers[w].pc.WritingRefs? && r in s.workers[w].pc.todo
    ensures OwnMove(s, WriteRef(s, w, r), w)
  {
    hide WriteRef;
  }

  lemma RefWritten(s: State, w: nat, r: string)
    requires w in s.workers && s.workers[w].pc.WritingRefs? && r in s.workers[w].pc.todo
    ensures var store, todo := s.stores(s.workers[w].job.group), s.workers[w].pc.todo;
            MovedTo(s, WriteRef(s, w, r), w, WritingRefs(todo - {r}), store.(refs := store.refs[r := todo[r]]))
  {
  }

  /** Undisturbed, a worker's steps leave its replica as RunJob does: finished, or part-way through
      copying when RunJob fails, or not begun when the source does not have the commit. */
  lemma SoloIsRunJob(s: State, w: nat, src: Store) returns (path: seq<State>, pc: Pc)
    requires w in s.workers && s.workers[w].pc.Claimed?
    ensures OwnMoves(path, w) && path != [] && path[0] == s
    ensures var (store, ok) := JobResult(src, s.stores(s.workers[w].job.group), s.workers[w].job.action);
            MovedTo(s, path[|path| - 1], w, pc, store) && (ok <==> pc == Finished)
  {
    hide OwnMove, MovedTo, SameQueue;
    var job := s.workers[w].job;
    var dst := s.stores(job.group);
    path, pc := [s], Claimed;
    match job.action {
      case DeleteRepo =>
        pc := Finished;
        WorkMoves(s, w, []);
        path := MoreMoves(path, w, Work(s, w, []));
        assert MovedTo(s, Work(s, w, []), w, Finished, EMPTY) by { DeleteMoves(s, w); }
      case CopyCommit(sha, refs) =>
        if sha !in src.manifests {
          StaysPut(s, w);
        } else {
          path, pc := SoloCopies(s, w, src, src.manifests[sha]);
        }
    }
  }

  lemma DeleteMoves(s: State, w: nat)
    requires w in s.workers && s.workers[w].pc.Claimed? && s.workers[w].job.action.DeleteRepo?
    ensures MovedTo(s, Work(s, w, []), w, Finished, EMPTY)
  {
  }

  lemma CopyStarts(s: State, w: nat, m: Manifest)
    requires w in s.workers && s.workers[w].pc.Claimed? && s.workers[w].job.action.CopyCommit?
    ensures MovedTo(s, Work(s, w, m), w, Copying(m, 0), s.stores(s.workers[w].job.group))
  {
  }

  lemma ManifestWritten(s: State, w: nat, m: Manifest)
    requires w in s.workers && s.workers[w].pc == Copying(m, |m|) && s.workers[w].job.action.CopyCommit?
    ensures var store, action := s.stores(s.workers[w].job.group), s.workers[w].job.action;
            MovedTo(s, Work(s, w, []), w, WritingRefs(action.refs), store.(manifests := store.manifests[action.sha := m]))
  {
  }

  lemma WorkerMoved(s: State, s': State, w: nat, pc: Pc, store: Store)
    requires MovedTo(s, s', w, pc, store)
    ensures w in s.workers && w in s'.workers && s'.workers[w] == Worker(s.workers[w].job, pc) && s'.stores(s.workers[w].job.group) == store
  {
  }

  lemma SoloCopies(s: State, w: nat, src: Store, m: Manifest) returns (path: seq<State>, pc: Pc)
    requires w in s.workers && s.workers[w].pc.Claimed? && s.workers[w].job.action.CopyCommit?
    requires s.workers[w].job.action.sha in src.manifests && src.manifests[s.workers[w].job.action.sha] == m
    ensures OwnMoves(path, w) && path != [] && path[0] == s
    ensures var (store, ok) := JobResult(src, s.stores(s.workers[w].job.group), s.workers[w].job.action);
            MovedTo(s, path[|path| - 1], w, pc, store) && (ok <==> pc == Finished)
  {
    hide OwnMove, MovedTo, Work, CopyBlobs, Digests, OwnMoves;
    var job := s.workers[w].job;
    var dst := s.stores(job.group);
    assert OwnMoves([s], w) by { OneState(s, w); }
    WorkMoves(s, w, m);
    CopyStarts(s, w, m);
    path := MoreMoves([s], w, Work(s, w, m));
    var s1 := Work(s, w, m);
    WorkerMoved(s, s1, w, Copying(m, 0), dst);
    CopyBlobsAddsPrefix(src, dst, m);
    var (copied, ok) := CopyBlobs(src, dst, m);
    var n :| 0 <= n <= |m| && copied.blobs == dst.blobs + Digests(m[..n]) && (ok ==> n == |m|);
    path := CopyMoves(path, w, m, n);
    pc := Copying(m, n);
    var s2 := path[|path| - 1];
    MovedThrough(s, s1, s2, w, pc, dst.(blobs := dst.blobs + Digests(m[..n])));
    assert copied == dst.(blobs := dst.blobs + Digests(m[..n]));
    if ok {
      WorkerMoved(s, s2, w, Copying(m, |m|), copied);
      WorkMoves(s2, w, []);
      path := MoreMoves(path, w, Work(s2, w, []));
      ManifestWritten(s2, w, m);
      var s3, written := Work(s2, w, []), copied.(manifests := copied.manifests[job.action.sha := m]);
      MovedThrough(s, s2, s3, w, WritingRefs(job.action.refs), written);
      WorkerMoved(s, s3, w, WritingRefs(job.action.refs), written);
      path := RefMoves(path, w);
      pc := Finished;
      MovedThrough(s, s3, path[|path| - 1], w, Finished, written.(refs := written.refs + job.action.refs));
    }
  }

  lemma OneState(s: State, w: nat)
    ensures OwnMoves([s], w)
  {
  }

  // ---------------------------------------------------------------- main results: exclusion, order, completeness

  /** At every step at most one job of a group is claimed or running. */
  lemma OneJobPerGroup(stores: Group -> Store, trace: seq<State>, i: nat, w: nat, v: nat)
    requires Run(stores, trace) && i < |trace| && w in trace[i].workers && v in trace[i].workers
    requires trace[i].workers[w].job.group == trace[i].workers[v].job.group
    ensures w == v
  {
    hide Run;
    RunKeepsQueue(stores, trace, i);
  }

  /** Only claimDue hands out jobs. */
  lemma NewWorkerWasClaimed(s: State, s': State, w: nat)
    requires Next(s, s') && w !in s.workers && w in s'.workers
    ensures OldestDue(s.jobs, s.inflight, s.now, s'.workers[w].job)
  {
    hide OldestDue, Fresh, AfterFailure, Kicked, Complete;
  }

  /** When a job is handed out, its group was idle and every older job still queued in the
      group has failed before, so a commit that never failed is never overtaken. */
  lemma NoOvertaking(stores: Group -> Store, trace: seq<State>, i: nat, w: nat, id: Id)
    requires Run(stores, trace) && i + 1 < |trace| && w !in trace[i].workers && w in trace[i + 1].workers
    requires id in trace[i].jobs && trace[i].jobs[id].group == trace[i + 1].workers[w].job.group
    requires trace[i].jobs[id].createdAt < trace[i + 1].workers[w].job.createdAt
    ensures trace[i].jobs[id].attempts > 0
    ensures forall v :: v in trace[i].workers ==> trace[i].workers[v].job.group != trace[i + 1].workers[w].job.group
  {
    RunKeepsQueue(stores, trace, i);
    assert Next(trace[i], trace[i + 1]);
    hide Run, Next;
    var s := trace[i];
    NewWorkerWasClaimed(s, trace[i + 1], w);
    assert !Claimable(s.jobs, s.inflight, s.now, id);
  }

  /** At claimDue: the job handed out is the oldest one queued in its group exactly when no older
      job of the group is still waiting for its next try. */
  lemma HandedOutOldestExactlyWhen(jobs: map<Id, Job>, inflight: set<Group>, now: int, job: Job)
    requires OldestDue(jobs, inflight, now, job)
    ensures (!exists id :: Older(jobs, job, id)) <==> !exists id :: Older(jobs, job, id) && jobs[id].nextTry > now
  {
    forall id | Older(jobs, job, id) ensures jobs[id].nextTry > now {
      assert !Claimable(jobs, inflight, now, id);
    }
  }

  /** Another job queued in the group was created earlier. */
  predicate Older(jobs: map<Id, Job>, job: Job, id: Id) {
    id in jobs && jobs[id].group == job.group && jobs[id].createdAt < job.createdAt
  }

  /** The replica never holds a manifest with a blob missing. */
  lemma ReplicaIsComplete(stores: Group -> Store, trace: seq<State>, i: nat, g: Group, sha: Sha, k: nat)
    requires Run(stores, trace) && i < |trace| && sha in trace[i].stores(g).manifests
    requires var m := trace[i].stores(g).manifests[sha]; k < |m| && m[k].digest.Some?
    ensures trace[i].stores(g).manifests[sha][k].digest.value in trace[i].stores(g).blobs
  {
    hide Run;
    RunKeepsQueue(stores, trace, i);
    var m := trace[i].stores(g).manifests[sha];
    assert m[k].digest.value in Digests(m);
  }

  // ---------------------------------------------------------------- a group in which nothing has failed or been swallowed

  /** The jobs ever persisted for a group, in order. */
  function GroupLog(persisted: seq<Job>, g: Group): seq<Job> {
    if persisted == [] then []
    else
      var last := persisted[|persisted| - 1];
      GroupLog(persisted[..|persisted| - 1], g) + if last.group == g then [last] else []
  }

  /** The clock moved between any two jobs of the group. */
  predicate Strict(log: seq<Job>) {
    forall i, j :: 0 <= i < j < |log| ==> log[i].createdAt < log[j].createdAt
  }

  function ApplyRefs(refs: map<string, Sha>, action: Action): map<string, Sha> {
    match action
    case DeleteRepo => map[]
    case CopyCommit(_, updates) => refs + updates
  }

  /** The refs after the jobs have run to completion one after the other. */
  function Drain(refs: map<string, Sha>, jobs: seq<Job>): map<string, Sha>
    decreases |jobs|
  {
    if jobs == [] then refs else Drain(ApplyRefs(refs, jobs[0].action), jobs[1..])
  }

  /** refs is base with the job's updates made to some of the refs, possibly none or all. */
  ghost predicate Partial(base: map<string, Sha>, refs: map<string, Sha>, action: Action) {
    match action
    case DeleteRepo => refs == base || refs == map[]
    case CopyCommit(_, updates) =>
      (forall r :: r in base || r in refs ==>
         (r in base && r in refs && refs[r] == base[r]) || (r in updates && r in refs && refs[r] == updates[r]))
  }

  /** However far a job got, running it again ends where it would have ended. */
  lemma PartialThenWhole(base: map<string, Sha>, refs: map<string, Sha>, action: Action)
    requires Partial(base, refs, action)
    ensures ApplyRefs(refs, action) == ApplyRefs(base, action)
  {
  }

  lemma {:induction false} DrainAppend(refs: map<string, Sha>, a: seq<Job>, b: seq<Job>)
    ensures Drain(refs, a + b) == Drain(Drain(refs, a), b)
    decreases |a|
  {
    hide ApplyRefs;
    if a == [] {
      assert a + b == b;
    } else {
      assert (a + b)[1..] == a[1..] + b;
      DrainAppend(ApplyRefs(refs, a[0].action), a[1..], b);
    }
  }

  /** The group's spool files are the jobs of its log from number done on. */
  ghost predicate Filed(s: State, g: Group) {
    var log := GroupLog(s.persisted, g);
    && 0 <= s.done(g) <= |log|
    && (forall i :: 0 <= i < |log| ==> log[i].attempts == 0 && log[i].group == g)
    && (forall i, j :: 0 <= i < j < |log| ==> log[i].id != log[j].id)
    && (forall i :: 0 <= i < |log| ==> (log[i].id in s.spool <==> i >= s.done(g)))
    && (forall i :: 0 <= i < |log| && log[i].id in s.spool ==> s.spool[log[i].id] == log[i])
    && (forall id :: id in s.spool && s.spool[id].group == g ==> InLog(log, id))
    && (forall id :: id in s.jobs && s.jobs[id].group == g ==> s.jobs[id].attempts == 0)
  }

  ghost predicate InLog(log: seq<Job>, id: Id) {
    exists i :: 0 <= i < |log| && log[i].id == id
  }

  /** Only the first job of the remaining log is ever being run or removed. */
  ghost predicate Current(s: State, g: Group) {
    var log := GroupLog(s.persisted, g);
    && (forall w :: w in s.workers && s.workers[w].job.group == g ==> IsFirst(s, g, log, s.workers[w].job))
    && (s.lock.Removing? && s.lock.job.group == g ==>
          IsFirst(s, g, log, s.lock.job) && forall w :: w in s.workers ==> s.workers[w].job.group != g)
  }

  predicate IsFirst(s: State, g: Group, log: seq<Job>, job: Job) {
    0 <= s.done(g) < |log| && log[s.done(g)].id == job.id && log[s.done(g)].action == job.action
  }

  /** The replica's refs: the removed jobs in full, and possibly part of the next one. */
  ghost predicate RefsInStep(stores: Group -> Store, s: State, g: Group)
    requires 0 <= s.done(g) <= |GroupLog(s.persisted, g)|
  {
    var log, k := GroupLog(s.persisted, g), s.done(g);
    var base, refs := Drain(stores(g).refs, log[..k]), s.stores(g).refs;
    && (k == |log| ==> refs == base)
    && (k < |log| ==> Partial(base, refs, log[k].action))
    && (forall w :: w in s.workers && s.workers[w].job.group == g ==> WorkerRefs(base, refs, s.workers[w]))
    && (s.lock.Removing? && s.lock.job.group == g ==> refs == ApplyRefs(base, s.lock.job.action))
  }

  predicate WorkerRefs(base: map<string, Sha>, refs: map<string, Sha>, worker: Worker) {
    match worker.pc
    case WritingRefs(todo) =>
      worker.job.action.CopyCommit? &&
      (forall r :: r in todo ==> r in worker.job.action.refs && todo[r] == worker.job.action.refs[r]) &&
      (forall r :: r in worker.job.action.refs && r !in todo ==> r in refs && refs[r] == worker.job.action.refs[r])
    case Finished => refs == ApplyRefs(base, worker.job.action)
    case _ => true
  }

  ghost predicate Ordered(stores: Group -> Store, s: State, g: Group) {
    Filed(s, g) && Current(s, g) && RefsInStep(stores, s, g)
  }

  ghost predicate Calm(s: State, g: Group) {
    g !in s.failed && g !in s.swallowed && Strict(GroupLog(s.persisted, g))
  }

  // ---------------------------------------------------------------- steps that do not reach the group

  /** A step that changes nothing the group's order depends on. */
  ghost predicate Elsewhere(s: State, s': State, g: Group) {
    && GroupLog(s'.persisted, g) == GroupLog(s.persisted, g) && s'.done(g) == s.done(g) && s'.stores(g).refs == s.stores(g).refs
    && (forall i :: 0 <= i < |GroupLog(s.persisted, g)| ==>
          var id := GroupLog(s.persisted, g)[i].id;
          (id in s'.spool <==> id in s.spool) && (id in s.spool ==> s'.spool[id] == s.spool[id]))
    && (forall id :: id in s'.spool && s'.spool[id].group == g ==> id in s.spool && s.spool[id].group == g)
    && (forall id :: id in s'.jobs && s'.jobs[id].group == g ==>
          (id in s.jobs && s'.jobs[id].attempts == s.jobs[id].attempts && s.jobs[id].group == g) || s'.jobs[id].attempts == 0)
    && (forall w :: w in s'.workers && s'.workers[w].job.group == g ==> w in s.workers && s'.workers[w] == s.workers[w])
    && (s'.lock.Removing? && s'.lock.job.group == g ==> s'.lock == s.lock)
  }

  lemma ElsewhereKeepsOrdered(stores: Group -> Store, s: State, s': State, g: Group)
    requires Ordered(stores, s, g) && Elsewhere(s, s', g)
    ensures Ordered(stores, s', g)
  {
    hide GroupLog, Drain, Partial, InLog, WorkerRefs, ApplyRefs;
  }

  /** A spool file that is not the group's is not one of its log's. */
  lemma NotInLog(s: State, g: Group, id: Id)
    requires Filed(s, g) && id in s.spool && s.spool[id].group != g
    ensures forall i :: 0 <= i < |GroupLog(s.persisted, g)| ==> GroupLog(s.persisted, g)[i].id != id
  {
    hide GroupLog, InLog;
  }

  lemma SpooledNeverFailed(s: State, g: Group, id: Id)
    requires Filed(s, g) && id in s.spool && s.spool[id].group == g
    ensures s.spool[id].attempts == 0
  {
    hide GroupLog;
    assert InLog(GroupLog(s.persisted, g), id);
  }

  lemma LockedStepElsewhere(s: State, s': State, g: Group)
    requires Filed(s, g) && Tracked(s)
    requires TickStep(s, s') || AddStep(s, s') || RetryStep(s, s')
    ensures Elsewhere(s, s', g)
  {
    hide GroupLog, InLog;
  }

  lemma RestartElsewhere(s: State, now: int, unread: set<Id>, g: Group)
    requires Filed(s, g)
    ensures Elsewhere(s, Restarted(s, now, unread), g)
  {
    forall id | id in s.spool && s.spool[id].group == g ensures s.spool[id].attempts == 0 {
      SpooledNeverFailed(s, g, id);
    }
    hide GroupLog, InLog, Filed;
  }

  lemma PersistElsewhere(s: State, job: Job, g: Group)
    requires Filed(s, g) && job.id !in s.spool && job.group != g
    requires forall k :: 0 <= k < |s.persisted| ==> s.persisted[k].id != job.id
    ensures Elsewhere(s, Persisted(s, job), g)
  {
    assert (s.persisted + [job])[..|s.persisted|] == s.persisted;
    forall i | 0 <= i < |GroupLog(s.persisted, g)| ensures GroupLog(s.persisted, g)[i].id != job.id {
      LogFromPersisted(s.persisted, g, i);
    }
    assert GroupLog(s.persisted + [job], g) == GroupLog(s.persisted, g);
    hide GroupLog, InLog;
  }

  lemma {:induction false} LogFromPersisted(persisted: seq<Job>, g: Group, i: nat)
    requires i < |GroupLog(persisted, g)|
    ensures exists k :: 0 <= k < |persisted| && persisted[k] == GroupLog(persisted, g)[i]
  {
    var n := |persisted| - 1;
    var init := GroupLog(persisted[..n], g);
    if i < |init| {
      LogFromPersisted(persisted[..n], g, i);
      var k :| 0 <= k < n && persisted[..n][k] == init[i];
      assert persisted[k] == GroupLog(persisted, g)[i];
    } else {
      assert persisted[n] == GroupLog(persisted, g)[i];
    }
  }

  lemma RemoveElsewhere(s: State, g: Group)
    requires Filed(s, g) && Tracked(s) && s.lock.Removing? && s.lock.job.group != g
    ensures Elsewhere(s, Removed(s, s.lock.job), g)
  {
    NotInLog(s, g, s.lock.job.id);
    hide GroupLog, InLog, Filed, JobsTracked;
  }

  lemma KeepElsewhere(s: State, g: Group)
    requires s.lock.Removing? && s.lock.job.group != g
    ensures Elsewhere(s, Kept(s, s.lock.job), g)
  {
    hide GroupLog;
  }

  lemma FailElsewhere(s: State, w: nat, maxBackoff: int, written: bool, g: Group)
    requires Filed(s, g) && Tracked(s) && w in s.workers && s.workers[w].job.group != g
    ensures Elsewhere(s, FailedAt(s, w, maxBackoff, written), g)
  {
    var job := s.workers[w].job;
    FailedJob(job, s.spool[job.id], s.now, maxBackoff);
    NotInLog(s, g, job.id);
    assert AfterFailure(job, s.now, maxBackoff).group != g;
    hide GroupLog, InLog, Filed, JobsTracked, AfterFailure;
  }

  lemma WorkerStepElsewhere(s: State, s': State, w: nat, g: Group)
    requires Filed(s, g) && w in s.workers
    requires s' == Released(s, w) || (s.workers[w].job.group != g && s' == Completed(s, w))
    ensures Elsewhere(s, s', g)
  {
    hide GroupLog, InLog;
  }

  lemma WorkElsewhere(s: State, w: nat, m: Manifest, g: Group)
    requires w in s.workers && s.workers[w].job.group != g
    ensures Elsewhere(s, Work(s, w, m), g)
  {
    WorkIsLocal(s, w, m);
    WorkKeepsQueue(s, w, m);
    hide GroupLog, Work;
  }

  lemma WriteRefElsewhere(s: State, w: nat, r: string, g: Group)
    requires w in s.workers && s.workers[w].pc.WritingRefs? && r in s.workers[w].pc.todo && s.workers[w].job.group != g
    ensures Elsewhere(s, WriteRef(s, w, r), g)
  {
    hide GroupLog;
  }

  lemma ClaimElsewhere(s: State, w: nat, job: Job, g: Group)
    requires w !in s.workers && job.group != g
    ensures Elsewhere(s, ClaimedBy(s, w, job), g)
  {
    hide GroupLog;
  }

  // ---------------------------------------------------------------- steps of the group itself

  lemma PersistExtendsLog(s: State, job: Job, g: Group)
    requires job.group == g && forall k :: 0 <= k < |s.persisted| ==> s.persisted[k].id != job.id
    ensures GroupLog(Persisted(s, job).persisted, g) == GroupLog(s.persisted, g) + [job]
    ensures forall i :: 0 <= i < |GroupLog(s.persisted, g)| ==> GroupLog(s.persisted, g)[i].id != job.id
  {
    assert (s.persisted + [job])[..|s.persisted|] == s.persisted;
    forall i | 0 <= i < |GroupLog(s.persisted, g)| ensures GroupLog(s.persisted, g)[i].id != job.id {
      LogFromPersisted(s.persisted, g, i);
    }
  }

  lemma PersistKeepsFiled(s: State, job: Job, g: Group)
    requires Filed(s, g) && job.group == g && job.id !in s.spool && job.attempts == 0
    requires forall k :: 0 <= k < |s.persisted| ==> s.persisted[k].id != job.id
    ensures Filed(Persisted(s, job), g)
  {
    PersistExtendsLog(s, job, g);
    var s', log := Persisted(s, job), GroupLog(s.persisted, g);
    var log' := GroupLog(s'.persisted, g);
    hide GroupLog;
    forall id | id in s'.spool && s'.spool[id].group == g ensures InLog(log', id) {
      if id == job.id {
        assert log'[|log|].id == id;
      } else {
        assert InLog(log, id);
        var i :| 0 <= i < |log| && log[i].id == id;
        assert log'[i].id == id;
      }
    }
  }

  lemma PersistKeepsOrdered(stores: Group -> Store, s: State, job: Job, g: Group)
    requires Ordered(stores, s, g) && s.lock.Free? && job.group == g && job.id !in s.spool && job.attempts == 0
    requires forall k :: 0 <= k < |s.persisted| ==> s.persisted[k].id != job.id
    ensures Ordered(stores, Persisted(s, job), g)
  {
    var s', log, k := Persisted(s, job), GroupLog(s.persisted, g), s.done(g);
    PersistExtendsLog(s, job, g);
    PersistKeepsFiled(s, job, g);
    var log' := GroupLog(s'.persisted, g);
    assert log'[..k] == log[..k];
    if k == |log| {
      assert log[..k] == log;
      NoneIsPartial(Drain(stores(g).refs, log), job.action);
    }
    hide GroupLog, WorkerRefs, Drain, Partial, Filed, ApplyRefs;
  }

  lemma NoneIsPartial(refs: map<string, Sha>, action: Action)
    ensures Partial(refs, refs, action)
  {
  }

  lemma ClaimKeepsOrdered(stores: Group -> Store, s: State, w: nat, job: Job, g: Group)
    requires Ordered(stores, s, g) && Tracked(s) && Calm(s, g)
    requires s.lock.Free? && w !in s.workers && job.group == g && OldestDue(s.jobs, s.inflight, s.now, job)
    ensures Ordered(stores, ClaimedBy(s, w, job), g)
  {
    ClaimedIsFirst(s, job, g);
    ClaimKeepsFiled(s, w, job, g);
    hide GroupLog, Drain, Partial, Filed, ApplyRefs, OldestDue, Tracked, Calm;
  }

  lemma ClaimKeepsFiled(s: State, w: nat, job: Job, g: Group)
    requires Filed(s, g)
    ensures Filed(ClaimedBy(s, w, job), g)
  {
    hide GroupLog, InLog;
  }

  /** Why the clock must move: of two jobs created at one instant either may be handed out. */
  lemma TiesRunEitherWay(s: State, job: Job, other: Job)
    requires OldestDue(s.jobs, s.inflight, s.now, job) && other.createdAt == job.createdAt
    requires Claimable(s.jobs, s.inflight, s.now, other.id) && s.jobs[other.id] == other
    ensures OldestDue(s.jobs, s.inflight, s.now, other)
  {
  }

  /** In a calm group the claimed job is the oldest that is left. */
  lemma ClaimedIsFirst(s: State, job: Job, g: Group)
    requires Filed(s, g) && Tracked(s) && Calm(s, g)
    requires s.lock.Free? && job.group == g && OldestDue(s.jobs, s.inflight, s.now, job)
    ensures IsFirst(s, g, GroupLog(s.persisted, g), job)
  {
    var log, k := GroupLog(s.persisted, g), s.done(g);
    hide GroupLog;
    var id :| Claimable(s.jobs, s.inflight, s.now, id) && s.jobs[id] == job;
    assert id in s.spool && s.spool[id].group == g && InLog(log, id);
    var i :| 0 <= i < |log| && log[i].id == id;
    assert i >= k && log[k].id in s.spool && s.spool[log[k].id] == log[k];
    assert log[k].id in s.jobs && SameJob(s.jobs[log[k].id], log[k]);
    assert Claimable(s.jobs, s.inflight, s.now, log[k].id);
    assert job.createdAt <= log[k].createdAt;
    assert job.createdAt == log[i].createdAt;
    assert i == k;
  }

  /** A worker of the group moves on and leaves its refs in step. */
  lemma OwnStepKeepsOrdered(stores: Group -> Store, s: State, s': State, w: nat, g: Group)
    requires Ordered(stores, s, g) && Exclusive(s) && SameQueue(s, s') && w in s.workers && s.workers[w].job.group == g
    requires var base := Drain(stores(g).refs, GroupLog(s.persisted, g)[..s.done(g)]);
             Partial(base, s'.stores(g).refs, s.workers[w].job.action) && WorkerRefs(base, s'.stores(g).refs, s'.workers[w])
    ensures Ordered(stores, s', g)
  {
    assert IsFirst(s, g, GroupLog(s.persisted, g), s.workers[w].job);
    OwnStepKeepsFiled(s, s', g);
    hide GroupLog, Drain, Partial, WorkerRefs, InLog, ApplyRefs, Filed;
  }

  lemma OwnStepKeepsFiled(s: State, s': State, g: Group)
    requires Filed(s, g) && SameQueue(s, s')
    ensures Filed(s', g)
  {
    hide GroupLog, InLog;
  }

  /** The refs of a worker's replica before its next call. */
  lemma WorkerIsInStep(stores: Group -> Store, s: State, w: nat, g: Group)
    requires Ordered(stores, s, g) && w in s.workers && s.workers[w].job.group == g
    ensures var base := Drain(stores(g).refs, GroupLog(s.persisted, g)[..s.done(g)]);
            Partial(base, s.stores(g).refs, s.workers[w].job.action) && WorkerRefs(base, s.stores(g).refs, s.workers[w])
  {
    hide GroupLog, Drain, Partial, WorkerRefs, InLog, ApplyRefs;
    assert IsFirst(s, g, GroupLog(s.persisted, g), s.workers[w].job);
  }

  lemma WorkKeepsOrdered(stores: Group -> Store, s: State, w: nat, m: Manifest, g: Group)
    requires Ordered(stores, s, g) && Exclusive(s) && w in s.workers && s.workers[w].job.group == g
    ensures Ordered(stores, Work(s, w, m), g)
  {
    WorkKeepsQueue(s, w, m);
    WorkerIsInStep(stores, s, w, g);
    hide Ordered, Exclusive, Work, SameQueue, Partial, WorkerRefs;
    WorkKeepsRefs(s, w, m, Drain(stores(g).refs, GroupLog(s.persisted, g)[..s.done(g)]));
    OwnStepKeepsOrdered(stores, s, Work(s, w, m), w, g);
  }

  /** What a worker's next call does to its replica's refs. */
  lemma WorkKeepsRefs(s: State, w: nat, m: Manifest, base: map<string, Sha>)
    requires w in s.workers
    requires Partial(base, s.stores(s.workers[w].job.group).refs, s.workers[w].job.action)
    requires WorkerRefs(base, s.stores(s.workers[w].job.group).refs, s.workers[w])
    ensures var refs := Work(s, w, m).stores(s.workers[w].job.group).refs;
            w in Work(s, w, m).workers && Partial(base, refs, s.workers[w].job.action) &&
            WorkerRefs(base, refs, Work(s, w, m).workers[w])
  {
    var pc := s.workers[w].pc;
    if pc.WritingRefs? && pc.todo == map[] {
      PartialDone(base, s.stores(s.workers[w].job.group).refs, s.workers[w].job.action.refs);
    }
  }

  lemma PartialDone(base: map<string, Sha>, refs: map<string, Sha>, updates: map<string, Sha>)
    requires forall r :: r in base || r in refs ==>
               (r in base && r in refs && refs[r] == base[r]) || (r in updates && r in refs && refs[r] == updates[r])
    requires forall r :: r in updates ==> r in refs && refs[r] == updates[r]
    ensures refs == base + updates
  {
  }

  lemma WriteRefKeepsOrdered(stores: Group -> Store, s: State, w: nat, r: string, g: Group)
    requires Ordered(stores, s, g) && Exclusive(s) && w in s.workers && s.workers[w].job.group == g
    requires s.workers[w].pc.WritingRefs? && r in s.workers[w].pc.todo
    ensures Ordered(stores, WriteRef(s, w, r), g)
  {
    WriteRefKeepsQueue(s, w, r);
    WorkerIsInStep(stores, s, w, g);
    hide Ordered, Exclusive, WriteRef, SameQueue, Partial, WorkerRefs;
    WriteRefKeepsRefs(s, w, r, Drain(stores(g).refs, GroupLog(s.persisted, g)[..s.done(g)]));
    OwnStepKeepsOrdered(stores, s, WriteRef(s, w, r), w, g);
  }

  lemma WriteRefKeepsRefs(s: State, w: nat, r: string, base: map<string, Sha>)
    requires w in s.workers && s.workers[w].pc.WritingRefs? && r in s.workers[w].pc.todo
    requires Partial(base, s.stores(s.workers[w].job.group).refs, s.workers[w].job.action)
    requires WorkerRefs(base, s.stores(s.workers[w].job.group).refs, s.workers[w])
    ensures var refs := WriteRef(s, w, r).stores(s.workers[w].job.group).refs;
            w in WriteRef(s, w, r).workers && Partial(base, refs, s.workers[w].job.action) &&
            WorkerRefs(base, refs, WriteRef(s, w, r).workers[w])
  {
  }

  lemma CompleteKeepsOrdered(stores: Group -> Store, s: State, w: nat, g: Group)
    requires Ordered(stores, s, g) && Exclusive(s) && w in s.workers && s.workers[w].job.group == g
    requires s.lock.Free? && s.workers[w].pc.Finished?
    ensures Ordered(stores, Completed(s, w), g)
  {
    assert WorkerRefs(Drain(stores(g).refs, GroupLog(s.persisted, g)[..s.done(g)]), s.stores(g).refs, s.workers[w]);
    hide GroupLog, Drain, Partial, InLog, ApplyRefs;
  }

  lemma RemoveKeepsFiled(s: State, g: Group)
    requires Filed(s, g) && s.lock.Removing? && s.lock.job.group == g && IsFirst(s, g, GroupLog(s.persisted, g), s.lock.job)
    ensures Filed(Removed(s, s.lock.job), g)
  {
    hide GroupLog, InLog;
  }

  lemma RemoveKeepsOrdered(stores: Group -> Store, s: State, g: Group)
    requires Ordered(stores, s, g) && s.lock.Removing? && s.lock.job.group == g
    ensures Ordered(stores, Removed(s, s.lock.job), g)
  {
    var log, k := GroupLog(s.persisted, g), s.done(g);
    RemoveKeepsFiled(s, g);
    assert log[..k + 1] == log[..k] + [log[k]];
    DrainAppend(stores(g).refs, log[..k], [log[k]]);
    DrainOne(Drain(stores(g).refs, log[..k]), log[k]);
    if k + 1 < |log| { NoneIsPartial(s.stores(g).refs, log[k + 1].action); }
    hide GroupLog, Drain, Partial, InLog, ApplyRefs, WorkerRefs, Filed;
  }

  lemma DrainOne(refs: map<string, Sha>, job: Job)
    ensures Drain(refs, [job]) == ApplyRefs(refs, job.action)
  {
    hide ApplyRefs;
    assert [job][1..] == [];
  }

  // ---------------------------------------------------------------- runs of a calm group

  lemma CalmBefore(s: State, s': State, g: Group)
    requires Next(s, s') && Calm(s', g)
    ensures Calm(s, g)
  {
    hide OldestDue, Work, WriteRef, AfterFailure, Kicked, Complete, Fresh, Strict, GroupLog;
    if WorkStep(s, s') {
      var w, m :| w in s.workers && s' == Work(s, w, m);
      WorkKeepsQueue(s, w, m);
    } else if RefStep(s, s') {
      var w, r :| w in s.workers && s.workers[w].pc.WritingRefs? && r in s.workers[w].pc.todo && s' == WriteRef(s, w, r);
      WriteRefKeepsQueue(s, w, r);
    } else if PersistStep(s, s') {
      var id, action, group, source :|
        s.lock.Free? && Fresh(s, id) && s' == Persisted(s, NewJob(id, action, group, source, s.now));
      StrictBefore(s.persisted, NewJob(id, action, group, source, s.now), g);
    }
  }

  lemma StrictBefore(persisted: seq<Job>, job: Job, g: Group)
    requires Strict(GroupLog(persisted + [job], g))
    ensures Strict(GroupLog(persisted, g))
  {
    assert (persisted + [job])[..|persisted|] == persisted;
    var log, log' := GroupLog(persisted, g), GroupLog(persisted + [job], g);
    assert forall i :: 0 <= i < |log| ==> log[i] == log'[i];
  }

  /** Steps taken under the queue lock or by the whole process. */
  lemma LockedStepKeepsOrdered(stores: Group -> Store, s: State, s': State, g: Group)
    requires Ordered(stores, s, g) && QueueOk(s)
    requires TickStep(s, s') || PersistStep(s, s') || AddStep(s, s') || RemoveStep(s, s') || RetryStep(s, s') || CrashStep(s, s')
    ensures Ordered(stores, s', g)
  {
    hide Current, RefsInStep, Elsewhere, Filed, TickStep, AddStep, RetryStep, GroupLog, Tracked, Exclusive;
    if PersistStep(s, s') {
      hide *;
      PersistStepKeepsOrdered(stores, s, s', g);
    } else if RemoveStep(s, s') {
      if s.lock.job.group == g {
        RemoveKeepsOrdered(stores, s, g);
      } else {
        RemoveElsewhere(s, g);
        ElsewhereKeepsOrdered(stores, s, s', g);
      }
    } else if CrashStep(s, s') {
      var now, unread :| now >= s.now && s' == Restarted(s, now, unread);
      RestartElsewhere(s, now, unread, g);
      ElsewhereKeepsOrdered(stores, s, s', g);
    } else {
      LockedStepElsewhere(s, s', g);
      ElsewhereKeepsOrdered(stores, s, s', g);
    }
  }

  lemma PersistStepKeepsOrdered(stores: Group -> Store, s: State, s': State, g: Group)
    requires Ordered(stores, s, g) && PersistStep(s, s')
    ensures Ordered(stores, s', g)
  {
    hide Current, RefsInStep, Elsewhere, Filed, GroupLog;
    var id, action, group, source :|
      s.lock.Free? && Fresh(s, id) && s' == Persisted(s, NewJob(id, action, group, source, s.now));
    var job := NewJob(id, action, group, source, s.now);
    if group == g {
      PersistKeepsOrdered(stores, s, job, g);
    } else {
      PersistElsewhere(s, job, g);
      ElsewhereKeepsOrdered(stores, s, s', g);
    }
  }

  lemma KeepStepKeepsOrdered(stores: Group -> Store, s: State, s': State, g: Group)
    requires Ordered(stores, s, g) && KeepStep(s, s') && g !in s'.swallowed
    ensures Ordered(stores, s', g)
  {
    hide Ordered, Elsewhere;
    KeepElsewhere(s, g);
    ElsewhereKeepsOrdered(stores, s, s', g);
  }

  lemma WorkerStepKeepsOrdered(stores: Group -> Store, s: State, s': State, g: Group)
    requires Ordered(stores, s, g) && QueueOk(s) && Calm(s, g) && Calm(s', g)
    requires ClaimStep(s, s') || WorkStep(s, s') || RefStep(s, s') || DoneStep(s, s') || FailStep(s, s') || ReleaseStep(s, s')
    ensures Ordered(stores, s', g)
  {
    hide Current, RefsInStep, Elsewhere, Filed, Tracked, Exclusive, Strict, GroupLog, Work, WriteRef, Completed, OldestDue,
         AfterFailure;
    if ClaimStep(s, s') {
      var w: nat, job :|
        s.lock.Free? && w !in s.workers && OldestDue(s.jobs, s.inflight, s.now, job) && s' == ClaimedBy(s, w, job);
      if job.group == g { ClaimKeepsOrdered(stores, s, w, job, g); }
      else { ClaimElsewhere(s, w, job, g); ElsewhereKeepsOrdered(stores, s, s', g); }
    } else if WorkStep(s, s') {
      var w, m :| w in s.workers && s' == Work(s, w, m);
      if s.workers[w].job.group == g { WorkKeepsOrdered(stores, s, w, m, g); }
      else { WorkElsewhere(s, w, m, g); ElsewhereKeepsOrdered(stores, s, s', g); }
    } else if RefStep(s, s') {
      var w, r :| w in s.workers && s.workers[w].pc.WritingRefs? && r in s.workers[w].pc.todo && s' == WriteRef(s, w, r);
      if s.workers[w].job.group == g { WriteRefKeepsOrdered(stores, s, w, r, g); }
      else { WriteRefElsewhere(s, w, r, g); ElsewhereKeepsOrdered(stores, s, s', g); }
    } else if DoneStep(s, s') {
      var w :| w in s.workers && s.lock.Free? && s.workers[w].pc.Finished? && s' == Completed(s, w);
      if s.workers[w].job.group == g { CompleteKeepsOrdered(stores, s, w, g); }
      else { WorkerStepElsewhere(s, s', w, g); ElsewhereKeepsOrdered(stores, s, s', g); }
    } else if FailStep(s, s') {
      var w, maxBackoff, written: bool :| w in s.workers && s.lock.Free? && s' == FailedAt(s, w, maxBackoff, written);
      FailElsewhere(s, w, maxBackoff, written, g);
      ElsewhereKeepsOrdered(stores, s, s', g);
    } else {
      var w :| w in s.workers && s.lock.Free? && s' == Released(s, w);
      WorkerStepElsewhere(s, s', w, g);
      ElsewhereKeepsOrdered(stores, s, s', g);
    }
  }

  lemma StartIsOrdered(stores: Group -> Store, s: State, g: Group)
    requires Start(stores, s)
    ensures Ordered(stores, s, g)
  {
  }

  lemma {:induction false} RunKeepsOrdered(stores: Group -> Store, trace: seq<State>, i: nat, g: Group)
    requires Run(stores, trace) && i < |trace| && Calm(trace[i], g)
    ensures Ordered(stores, trace[i], g)
  {
    hide Next, Start, Calm, Ordered, QueueOk;
    if i == 0 {
      StartIsOrdered(stores, trace[0], g);
    } else {
      assert Next(trace[i - 1], trace[i]);
      CalmBefore(trace[i - 1], trace[i], g);
      RunKeepsOrdered(stores, trace, i - 1, g);
      RunKeepsQueue(stores, trace, i - 1);
      hide Run;
      NextKeepsOrdered(stores, trace[i - 1], trace[i], g);
    }
  }

  lemma NextKeepsOrdered(stores: Group -> Store, s: State, s': State, g: Group)
    requires Ordered(stores, s, g) && QueueOk(s) && Next(s, s') && Calm(s, g) && Calm(s', g)
    ensures Ordered(stores, s', g)
  {
    hide Ordered, QueueOk, Strict, TickStep, PersistStep, AddStep, RemoveStep, KeepStep, RetryStep, CrashStep, ClaimStep, WorkStep,
         RefStep, DoneStep, FailStep, ReleaseStep, GroupLog;
    if TickStep(s, s') || PersistStep(s, s') || AddStep(s, s') || RemoveStep(s, s') || RetryStep(s, s') || CrashStep(s, s') {
      LockedStepKeepsOrdered(stores, s, s', g);
    } else if KeepStep(s, s') {
      KeepStepKeepsOrdered(stores, s, s', g);
    } else {
      WorkerStepKeepsOrdered(stores, s, s', g);
    }
  }

  // ---------------------------------------------------------------- main results: crash and replay

  /** If no job of a group has failed and no failure to remove or load one of its spool files was
      swallowed, then at every step, and so at every crash, the group's
      spool files are exactly the jobs persisted for it from some number on, and running those
      from here ends in the refs of an uninterrupted run. */
  lemma SpoolIsTheRest(stores: Group -> Store, trace: seq<State>, i: nat, g: Group)
    requires Run(stores, trace) && i < |trace| && Calm(trace[i], g)
    ensures var s := trace[i];
            var log := GroupLog(s.persisted, g);
            exists k :: 0 <= k <= |log| &&
              (forall id :: id in s.spool && s.spool[id].group == g <==> InLog(log[k..], id)) &&
              (forall n :: k <= n < |log| ==> log[n].id in s.spool && s.spool[log[n].id] == log[n]) &&
              Drain(s.stores(g).refs, log[k..]) == Drain(stores(g).refs, log)
  {
    RunKeepsOrdered(stores, trace, i, g);
    hide Run;
    var s, log, k := trace[i], GroupLog(trace[i].persisted, g), trace[i].done(g);
    RestDrainsTheSame(stores, s, g);
    hide Current, RefsInStep, GroupLog, Drain;
    forall id ensures id in s.spool && s.spool[id].group == g <==> InLog(log[k..], id) {
      FiledIsSuffix(s, g, id);
    }
  }

  lemma FiledIsSuffix(s: State, g: Group, id: Id)
    requires Filed(s, g)
    ensures id in s.spool && s.spool[id].group == g <==> InLog(GroupLog(s.persisted, g)[s.done(g)..], id)
  {
    var log, k := GroupLog(s.persisted, g), s.done(g);
    hide GroupLog;
    if id in s.spool && s.spool[id].group == g {
      assert InLog(log, id);
      var n :| 0 <= n < |log| && log[n].id == id;
      assert log[k..][n - k].id == id;
    }
    if InLog(log[k..], id) {
      var n :| 0 <= n < |log[k..]| && log[k..][n].id == id;
      assert log[k + n].id == id && s.spool[id] == log[k + n];
    }
  }

  lemma RestDrainsTheSame(stores: Group -> Store, s: State, g: Group)
    requires Ordered(stores, s, g)
    ensures var log := GroupLog(s.persisted, g);
            Drain(s.stores(g).refs, log[s.done(g)..]) == Drain(stores(g).refs, log)
  {
    var log, k := GroupLog(s.persisted, g), s.done(g);
    var base := Drain(stores(g).refs, log[..k]);
    assert log == log[..k] + log[k..];
    DrainAppend(stores(g).refs, log[..k], log[k..]);
    hide Filed, Current, GroupLog, WorkerRefs;
    if k < |log| {
      PartialThenWhole(base, s.stores(g).refs, log[k].action);
    }
  }

  /** Once nothing is spooled for the group, crashes and restarts have left no trace. */
  lemma DrainedRefs(stores: Group -> Store, trace: seq<State>, i: nat, g: Group)
    requires Run(stores, trace) && i < |trace| && Calm(trace[i], g)
    requires forall id :: id in trace[i].spool ==> trace[i].spool[id].group != g
    ensures trace[i].stores(g).refs == Drain(stores(g).refs, GroupLog(trace[i].persisted, g))
  {
    RunKeepsOrdered(stores, trace, i, g);
    hide Run;
    var s, log, k := trace[i], GroupLog(trace[i].persisted, g), trace[i].done(g);
    RestDrainsTheSame(stores, s, g);
    assert forall n {:trigger log[n]} :: 0 <= n < |log| ==> n < k;
    assert k == |log| && log[k..] == [];
  }

  // ---------------------------------------------------------------- what a failure costs

  lemma RunGrows(stores: Group -> Store, trace: seq<State>, s: State) returns (trace': seq<State>)
    requires Run(stores, trace) && Next(trace[|trace| - 1], s)
    ensures Run(stores, trace') && trace' != [] && trace'[|trace'| - 1] == s
  {
    hide Next, Start;
    trace' := trace + [s];
  }

  /** Nobody is working and the lock is free. */
  predicate AtRest(s: State) { s.lock.Free? && s.workers == map[] && s.inflight == {} }

  lemma JobEnqueued(stores: Group -> Store, trace: seq<State>, job: Job) returns (trace': seq<State>)
    requires Run(stores, trace)
    requires var s := trace[|trace| - 1];
             AtRest(s) && Fresh(s, job.id) && job == NewJob(job.id, job.action, job.group, job.source, s.now)
    ensures Run(stores, trace') && trace' != []
    ensures var s, s' := trace[|trace| - 1], trace'[|trace'| - 1];
            AtRest(s') && s'.jobs == s.jobs[job.id := job] && s'.spool == s.spool[job.id := job] && s'.now == s.now &&
            s'.persisted == s.persisted + [job] && s'.stores == s.stores && s'.failed == s.failed && s'.swallowed == s.swallowed
  {
    var s := trace[|trace| - 1];
    var s1 := Persisted(s, job);
    assert PersistStep(s, s1);
    trace' := RunGrows(stores, trace, s1);
    var s2 := Added(s1, job);
    assert AddStep(s1, s2);
    hide Run;
    trace' := RunGrows(stores, trace', s2);
  }

  lemma TimePasses(stores: Group -> Store, trace: seq<State>, now: int) returns (trace': seq<State>)
    requires Run(stores, trace) && trace[|trace| - 1].now <= now
    ensures Run(stores, trace') && trace' != [] && trace'[|trace'| - 1] == trace[|trace| - 1].(now := now)
  {
    var s := trace[|trace| - 1];
    assert TickStep(s, s.(now := now));
    trace' := RunGrows(stores, trace, s.(now := now));
  }

  lemma JobFails(stores: Group -> Store, trace: seq<State>, job: Job, maxBackoff: int) returns (trace': seq<State>)
    requires Run(stores, trace)
    requires var s := trace[|trace| - 1];
             AtRest(s) && OldestDue(s.jobs, s.inflight, s.now, job)
    ensures Run(stores, trace') && trace' != []
    ensures var s, s' := trace[|trace| - 1], trace'[|trace'| - 1];
            var job' := AfterFailure(job, s.now, maxBackoff);
            AtRest(s') && s'.jobs == s.jobs[job.id := job'] && s'.spool == s.spool[job.id := job'] && s'.now == s.now &&
            s'.persisted == s.persisted && s'.stores == s.stores && s'.failed == s.failed + {job.group} &&
            s'.swallowed == s.swallowed
  {
    hide OldestDue, AfterFailure;
    var s := trace[|trace| - 1];
    var s1 := ClaimedBy(s, 0, job);
    assert ClaimStep(s, s1);
    trace' := RunGrows(stores, trace, s1);
    var s2 := FailedAt(s1, 0, maxBackoff, true);
    assert FailStep(s1, s2);
    hide Run;
    trace' := RunGrows(stores, trace', s2);
    assert s2.workers == map[] && s2.inflight == {};
  }

  /** A commit of no files is copied: its manifest and its one ref are written, and its spool
      file is removed if it can be. */
  lemma JobSucceeds(stores: Group -> Store, trace: seq<State>, job: Job, r: string, sha: Sha, removed: bool)
    returns (trace': seq<State>)
    requires Run(stores, trace) && job.action == CopyCommit(sha, map[r := sha])
    requires var s := trace[|trace| - 1];
             AtRest(s) && OldestDue(s.jobs, s.inflight, s.now, job)
    ensures Run(stores, trace') && trace' != []
    ensures var s, s' := trace[|trace| - 1], trace'[|trace'| - 1];
            AtRest(s') && s'.jobs == s.jobs - {job.id} && s'.spool == (if removed then s.spool - {job.id} else s.spool) &&
            s'.now == s.now && s'.persisted == s.persisted && s'.stores(job.group).refs == s.stores(job.group).refs[r := sha] &&
            s'.failed == s.failed && s'.swallowed == if removed then s.swallowed else s.swallowed + {job.group}
  {
    hide OldestDue;
    var s := trace[|trace| - 1];
    var s1 := ClaimedBy(s, 0, job);
    assert ClaimStep(s, s1);
    trace' := RunGrows(stores, trace, s1);
    hide Run;
    trace' := CommitCopied(stores, trace', job, r, sha);
    var s2 := trace'[|trace'| - 1];
    var s3 := Completed(s2, 0);
    assert DoneStep(s2, s3);
    trace' := RunGrows(stores, trace', s3);
    var s4 := if removed then Removed(s3, job) else Kept(s3, job);
    assert RemoveStep(s3, s4) || KeepStep(s3, s4);
    trace' := RunGrows(stores, trace', s4);
    assert s4.workers == map[] && s4.inflight == {};
  }

  lemma CommitCopied(stores: Group -> Store, trace: seq<State>, job: Job, r: string, sha: Sha) returns (trace': seq<State>)
    requires Run(stores, trace) && job.action == CopyCommit(sha, map[r := sha])
    requires var s := trace[|trace| - 1];
             s.lock.Free? && s.workers == map[0 := Worker(job, Claimed)]
    ensures Run(stores, trace') && trace' != []
    ensures var s, s' := trace[|trace| - 1], trace'[|trace'| - 1];
            s' == s.(workers := map[0 := Worker(job, Finished)], stores := s'.stores) &&
            s'.stores(job.group).refs == s.stores(job.group).refs[r := sha]
  {
    var s := trace[|trace| - 1];
    var s1 := Work(s, 0, []);
    assert WorkStep(s, s1) && s1 == s.(workers := map[0 := Worker(job, Copying([], 0))]);
    trace' := RunGrows(stores, trace, s1);
    hide Run;
    var s2 := Work(s1, 0, []);
    assert WorkStep(s1, s2) && s2 == s.(workers := map[0 := Worker(job, WritingRefs(map[r := sha]))], stores := s2.stores);
    trace' := RunGrows(stores, trace', s2);
    var s3 := WriteRef(s2, 0, r);
    assert map[r := sha] - {r} == map[];
    assert RefStep(s2, s3) && s3 == s.(workers := map[0 := Worker(job, WritingRefs(map[]))], stores := s3.stores);
    trace' := RunGrows(stores, trace', s3);
    var s4 := Work(s3, 0, []);
    assert WorkStep(s3, s4) && s4 == s.(workers := map[0 := Worker(job, Finished)], stores := s4.stores);
    trace' := RunGrows(stores, trace', s4);
  }

  lemma ProcessRestarts(stores: Group -> Store, trace: seq<State>, unread: set<Id>) returns (trace': seq<State>)
    requires Run(stores, trace)
    ensures Run(stores, trace') && trace' != []
    ensures trace'[|trace'| - 1] == Restarted(trace[|trace| - 1], trace[|trace| - 1].now, unread)
  {
    var s := trace[|trace| - 1];
    assert CrashStep(s, Restarted(s, s.now, unread));
    trace' := RunGrows(stores, trace, Restarted(s, s.now, unread));
  }

  /** The group's two commits of one ref are through, and the older one had the last word. */
  predicate OlderWon(s: State, g: Group, r: string, older: Sha, newer: Sha) {
    s.spool == map[] && s.jobs == map[] && |s.persisted| == 2 &&
    s.persisted[0].action == CopyCommit(older, map[r := older]) && s.persisted[0].group == g &&
    s.persisted[1].action == CopyCommit(newer, map[r := newer]) && s.persisted[1].group == g &&
    s.persisted[0].createdAt < s.persisted[1].createdAt && r in s.stores(g).refs && s.stores(g).refs[r] == older
  }

  function Commit(id: Id, g: Group, r: string, sha: Sha, now: int): Job {
    NewJob(id, CopyCommit(sha, map[r := sha]), g, "", now)
  }

  lemma StartsEmpty(stores: Group -> Store) returns (trace: seq<State>)
    requires forall h: Group :: Complete(stores(h))
    ensures Run(stores, trace)
    ensures trace == [State(0, map[], {}, Free, map[], map[], stores, [], {}, {}, (h: Group) => 0)]
  {
    trace := [State(0, map[], {}, Free, map[], map[], stores, [], {}, {}, (h: Group) => 0)];
  }

  /** Two commits of one ref are enqueued one after the other. */
  lemma BothEnqueued(stores: Group -> Store, g: Group, r: string, older: Sha, newer: Sha) returns (trace: seq<State>)
    requires forall h: Group :: Complete(stores(h))
    ensures Run(stores, trace) && trace != []
    ensures var s, both := trace[|trace| - 1], map["a" := Commit("a", g, r, older, 0), "b" := Commit("b", g, r, newer, 1)];
            AtRest(s) && s.jobs == both && s.spool == both && s.now == 1 && s.failed == {} && s.swallowed == {} &&
            s.persisted == [Commit("a", g, r, older, 0), Commit("b", g, r, newer, 1)]
  {
    hide Run;
    trace := StartsEmpty(stores);
    trace := JobEnqueued(stores, trace, Commit("a", g, r, older, 0));
    trace := TimePasses(stores, trace, 1);
    trace := JobEnqueued(stores, trace, Commit("b", g, r, newer, 1));
  }

  /** Without any job failing: the older commit completes but its file cannot be removed, the newer
      one completes, and after a restart the older one runs again and points the ref backwards. */
  lemma KeptFileRunsAgain(stores: Group -> Store, g: Group, r: string, older: Sha, newer: Sha) returns (trace: seq<State>)
    requires forall h: Group :: Complete(stores(h))
    ensures Run(stores, trace) && trace != []
    ensures var s := trace[|trace| - 1];
            OlderWon(s, g, r, older, newer) && s.failed == {} && s.swallowed == {g}
  {
    hide Run;
    var a, b := Commit("a", g, r, older, 0), Commit("b", g, r, newer, 1);
    trace := BothEnqueued(stores, g, r, older, newer);
    assert Claimable(map["a" := a, "b" := b], {}, 1, "a");
    trace := JobSucceeds(stores, trace, a, r, older, false);
    assert map["a" := a, "b" := b] - {"a"} == map["b" := b] && Claimable(map["b" := b], {}, 1, "b");
    trace := JobSucceeds(stores, trace, b, r, newer, true);
    assert map["a" := a, "b" := b] - {"b"} == map["a" := a];
    trace := ProcessRestarts(stores, trace, {});
    assert trace[|trace| - 1].jobs == map["a" := a.(nextTry := 1)];
    assert Claimable(map["a" := a.(nextTry := 1)], {}, 1, "a");
    trace := JobSucceeds(stores, trace, a.(nextTry := 1), r, older, true);
  }

  /** The same when one process cannot read the older commit's file and the next one can. */
  lemma UnreadFileRunsLate(stores: Group -> Store, g: Group, r: string, older: Sha, newer: Sha) returns (trace: seq<State>)
    requires forall h: Group :: Complete(stores(h))
    ensures Run(stores, trace) && trace != []
    ensures var s := trace[|trace| - 1];
            OlderWon(s, g, r, older, newer) && s.failed == {} && s.swallowed == {g}
  {
    hide Run;
    var a, b := Commit("a", g, r, older, 0), Commit("b", g, r, newer, 1);
    trace := BothEnqueued(stores, g, r, older, newer);
    trace := ProcessRestarts(stores, trace, {"a"});
    assert trace[|trace| - 1].jobs == map["b" := b] && Claimable(map["b" := b], {}, 1, "b");
    assert trace[|trace| - 1].swallowed == {g};
    trace := JobSucceeds(stores, trace, b, r, newer, true);
    assert map["a" := a, "b" := b] - {"b"} == map["a" := a];
    trace := ProcessRestarts(stores, trace, {});
    assert trace[|trace| - 1].jobs == map["a" := a.(nextTry := 1)];
    assert Claimable(map["a" := a.(nextTry := 1)], {}, 1, "a");
    trace := JobSucceeds(stores, trace, a.(nextTry := 1), r, older, true);
  }

  /** After a failure the promised order is gone: the older commit of a ref can back off, be
      overtaken by the newer one and point the ref backwards, for good. */
  lemma OlderCommitCanWin(stores: Group -> Store, g: Group, r: string, older: Sha, newer: Sha) returns (trace: seq<State>)
    requires forall h: Group :: Complete(stores(h))
    ensures Run(stores, trace) && trace != []
    ensures var s := trace[|trace| - 1];
            OlderWon(s, g, r, older, newer) && s.failed == {g} && s.swallowed == {}
  {
    var a, b := Commit("a", g, r, older, 0), Commit("b", g, r, newer, 1);
    hide Run, Backoff;
    assert Backoff(1, 300) == 2 by { FirstBackoff(); }
    trace := StartsEmpty(stores);
    trace := JobEnqueued(stores, trace, a);
    assert Claimable(map["a" := a], {}, 0, "a");
    trace := JobFails(stores, trace, a, 300);
    var a' := AfterFailure(a, 0, 300);
    trace := TimePasses(stores, trace, 1);
    trace := JobEnqueued(stores, trace, b);
    var both := map["a" := a', "b" := b];
    assert trace[|trace| - 1].jobs == both;
    trace := NewerFirst(stores, trace, a', b, r, older, newer);
  }

  /** The newer job is due and the older one is not, but will be. */
  lemma NewerFirst(stores: Group -> Store, trace: seq<State>, a: Job, b: Job, r: string, older: Sha, newer: Sha) returns (trace': seq<State>)
    requires Run(stores, trace) && a.id == "a" && b.id == "b" && a.group == b.group && a.nextTry == 2 && b.nextTry <= 1
    requires a.action == CopyCommit(older, map[r := older]) && b.action == CopyCommit(newer, map[r := newer])
    requires var s := trace[|trace| - 1];
             AtRest(s) && s.jobs == map["a" := a, "b" := b] && s.spool.Keys == {"a", "b"} && s.now == 1
    ensures Run(stores, trace') && trace' != []
    ensures var s, s' := trace[|trace| - 1], trace'[|trace'| - 1];
            s'.jobs == map[] && s'.spool == map[] && s'.persisted == s.persisted && s'.failed == s.failed && s'.swallowed == s.swallowed &&
            r in s'.stores(a.group).refs && s'.stores(a.group).refs[r] == older
  {
    hide Run;
    var both := map["a" := a, "b" := b];
    assert Claimable(both, {}, 1, "b") && !Claimable(both, {}, 1, "a");
    trace' := JobSucceeds(stores, trace, b, r, newer, true);
    assert both - {"b"} == map["a" := a];
    trace' := TimePasses(stores, trace', 2);
    assert Claimable(map["a" := a], {}, 2, "a");
    trace' := JobSucceeds(stores, trace', a, r, older, true);
  }

  lemma FirstBackoff()
    ensures Backoff(1, 300) == 2
  {
    assert Pow2(1) == 2 * Pow2(0);
  }

  // ---------------------------------------------------------------- the order, exactly

  /** Jobs have failed, and failures to remove or load a spool file were swallowed, only in groups
      where they may. */
  ghost predicate FaultsOnlyIn(mayFail: Group -> bool, maySwallow: Group -> bool, s: State) {
    (forall g :: g in s.failed ==> mayFail(g)) && forall g :: g in s.swallowed ==> maySwallow(g)
  }

  /** The group's queue has run dry, and the clock moved between its jobs. */
  ghost predicate DrainedInOrder(s: State, g: Group) {
    (forall id :: id in s.spool ==> s.spool[id].group != g) && Strict(GroupLog(s.persisted, g))
  }

  /** The group's refs are those of the uninterrupted run of its jobs. */
  ghost predicate EndsInOrder(stores: Group -> Store, s: State, g: Group) {
    s.stores(g).refs == Drain(stores(g).refs, GroupLog(s.persisted, g))
  }

  /** Every run that drains a group ends in the refs of the uninterrupted run, whatever crashes,
      restarts and retries it saw, if and only if no job of the group may fail and no failure to
      remove or load one of its spool files may be swallowed. */
  lemma DrainsInOrderExactlyWhen(stores: Group -> Store, mayFail: Group -> bool, maySwallow: Group -> bool, g: Group)
    requires forall h: Group :: Complete(stores(h))
    ensures (forall trace: seq<State>, i ::
               Run(stores, trace) && 0 <= i < |trace| && FaultsOnlyIn(mayFail, maySwallow, trace[i]) &&
               DrainedInOrder(trace[i], g) ==>
                 EndsInOrder(stores, trace[i], g)) <==>
            !mayFail(g) && !maySwallow(g)
  {
    hide Run, Complete;
    if mayFail(g) || maySwallow(g) {
      var trace;
      if mayFail(g) {
        trace := OlderCommitCanWin(stores, g, "main", "older", "newer");
      } else {
        trace := KeptFileRunsAgain(stores, g, "main", "older", "newer");
      }
      var s := trace[|trace| - 1];
      TwoCommitsInLog(s, g);
      LastCommitWins(stores(g).refs, s.persisted);
      hide Drain, GroupLog;
      assert FaultsOnlyIn(mayFail, maySwallow, s) && DrainedInOrder(s, g) && !EndsInOrder(stores, s, g);
    } else {
      forall trace: seq<State>, i
        | Run(stores, trace) && 0 <= i < |trace| && FaultsOnlyIn(mayFail, maySwallow, trace[i]) && DrainedInOrder(trace[i], g)
        ensures EndsInOrder(stores, trace[i], g)
      {
        hide GroupLog, Strict, Drain;
        DrainedRefs(stores, trace, i, g);
      }
    }
  }

  lemma TwoCommitsInLog(s: State, g: Group)
    requires |s.persisted| == 2 && s.persisted[0].group == g && s.persisted[1].group == g
    requires s.persisted[0].createdAt < s.persisted[1].createdAt
    ensures GroupLog(s.persisted, g) == s.persisted && Strict(GroupLog(s.persisted, g))
  {
    var log := s.persisted;
    assert log[..1] == [log[0]] && log[..1][..0] == [];
    assert GroupLog(log[..1], g) == [log[0]];
    assert log == [log[0]] + [log[1]];
  }

  lemma LastCommitWins(refs: map<string, Sha>, log: seq<Job>)
    requires |log| == 2 && log[0].action == CopyCommit("older", map["main" := "older"])
    requires log[1].action == CopyCommit("newer", map["main" := "newer"])
    ensures "main" in Drain(refs, log) && Drain(refs, log)["main"] == "newer"
  {
    assert log == [log[0]] + [log[1]];
    DrainAppend(refs, [log[0]], [log[1]]);
    DrainOne(refs, log[0]);
    DrainOne(Drain(refs, [log[0]]), log[1]);
  }
}
