/** The replication queue's bookkeeping and what one job does to a replica
    (internal/replication/replication.go). */
module Replication {
  import opened Common

  type Sha = string
  type Id = string

  /** Jobs for one repo on one target form a group. */
  datatype Group = Group(target: string, kind: string, repo: string)

  datatype Action = CopyCommit(sha: Sha, refs: map<string, Sha>) | DeleteRepo

  datatype Job = Job(id: Id, action: Action, group: Group, source: string, createdAt: int, attempts: nat, nextTry: int)

  /** A spool file; an unreadable one is skipped on load. */
  datatype SpoolFile = Spooled(job: Job) | Corrupt

  datatype Outcome = Done | Failed | ShuttingDown

  // ---------------------------------------------------------------- specifications of the queue's steps

  predicate Claimable(jobs: map<Id, Job>, inflight: set<Group>, now: int, id: Id) {
    id in jobs && jobs[id].nextTry <= now && jobs[id].group !in inflight
  }

  /** A due job of an idle group than which no due job of an idle group is older. */
  ghost predicate OldestDue(jobs: map<Id, Job>, inflight: set<Group>, now: int, job: Job) {
    (exists id :: Claimable(jobs, inflight, now, id) && jobs[id] == job) &&
    forall id :: Claimable(jobs, inflight, now, id) ==> job.createdAt <= jobs[id].createdAt
  }

  function Pow2(n: nat): nat { if n == 0 then 1 else 2 * Pow2(n - 1) }

  /** Seconds to wait after the given number of failed attempts. */
  function Backoff(attempts: nat, maxBackoff: int): int {
    var wait := Pow2(if attempts <= 16 then attempts else 16);
    if wait <= maxBackoff then wait else maxBackoff
  }

  /** The wait doubles with every failed attempt, up to the sixteenth and up to the cap. */
  lemma BackoffDoubles(attempts: nat, maxBackoff: int)
    requires maxBackoff > 0
    ensures Backoff(0, maxBackoff) == 1
    ensures Backoff(attempts + 1, maxBackoff) ==
            if attempts >= 16 then Backoff(16, maxBackoff)
            else if 2 * Backoff(attempts, maxBackoff) <= maxBackoff then 2 * Backoff(attempts, maxBackoff)
            else maxBackoff
  {
  }

  function AfterFailure(job: Job, now: int, maxBackoff: int): Job {
    job.(attempts := job.attempts + 1, nextTry := now + Backoff(job.attempts + 1, maxBackoff))
  }

  /** A failed job waits, and is otherwise the same job tried once more. */
  lemma FailedJobWaits(job: Job, now: int, maxBackoff: int)
    requires maxBackoff > 0
    ensures var job' := AfterFailure(job, now, maxBackoff);
            now < job'.nextTry <= now + maxBackoff &&
            (job.attempts < 16 ==> Backoff(job.attempts + 1, maxBackoff) == job'.nextTry - now) &&
            job' == Job(job.id, job.action, job.group, job.source, job.createdAt, job.attempts + 1, job'.nextTry)
  {
    PowPositive(if job.attempts + 1 <= 16 then job.attempts + 1 else 16);
  }

  lemma {:induction false} PowPositive(n: nat)
    ensures Pow2(n) > 0
  {
    if n > 0 { PowPositive(n - 1); }
  }

  /** What a restart loads: every readable file, due at once. */
  function Reloaded(spool: map<Id, SpoolFile>, now: int): map<Id, Job> {
    map id | id in spool && spool[id].Spooled? :: spool[id].job.(nextTry := now)
  }

  function NewJob(id: Id, action: Action, group: Group, source: string, now: int): Job {
    Job(id, action, group, source, now, 0, now)
  }

  /** The first n jobs of an enqueue call, one per target. */
  function NewJobs(ids: seq<Id>, action: Action, kind: string, repo: string, source: string, targets: seq<string>, now: int,
                   n: nat): (jobs: map<Id, Job>)
    requires n <= |targets| <= |ids|
  {
    if n == 0 then map[]
    else
      var job := NewJob(ids[n - 1], action, Group(targets[n - 1], kind, repo), source, now);
      NewJobs(ids, action, kind, repo, source, targets, now, n - 1)[job.id := job]
  }

  /** One enqueued job per target, under its own id, ... */
  lemma {:induction false} NewJobsIds(ids: seq<Id>, action: Action, kind: string, repo: string, source: string,
                                      targets: seq<string>, now: int, n: nat, id: Id)
    requires n <= |targets| <= |ids|
    ensures id in NewJobs(ids, action, kind, repo, source, targets, now, n) <==> id in ids[..n]
    decreases n
  {
    if n > 0 {
      NewJobsIds(ids, action, kind, repo, source, targets, now, n - 1, id);
      assert ids[..n] == ids[..n - 1] + [ids[n - 1]];
    }
  }

  /** ... due at once and never tried. */
  lemma {:induction false} NewJobsAt(ids: seq<Id>, action: Action, kind: string, repo: string, source: string,
                                     targets: seq<string>, now: int, n: nat, i: nat)
    requires i < n <= |targets| <= |ids| && forall j :: i < j < |ids| ==> ids[i] != ids[j]
    ensures var jobs := NewJobs(ids, action, kind, repo, source, targets, now, n);
            ids[i] in jobs && jobs[ids[i]] == Job(ids[i], action, Group(targets[i], kind, repo), source, now, 0, now)
    decreases n
  {
    if i < n - 1 {
      NewJobsAt(ids, action, kind, repo, source, targets, now, n - 1, i);
    }
  }

  function AsFiles(jobs: map<Id, Job>): map<Id, SpoolFile> {
    map id | id in jobs :: Spooled(jobs[id])
  }

  lemma FilesHoldJobs(jobs: map<Id, Job>, id: Id)
    ensures id in AsFiles(jobs) <==> id in jobs
    ensures id in jobs ==> AsFiles(jobs)[id] == Spooled(jobs[id])
  {
  }

  lemma NoFiles()
    ensures AsFiles(map[]) == map[]
  {
  }

  lemma EnqueueStep(jobs: map<Id, Job>, spool: map<Id, SpoolFile>, added: map<Id, Job>, job: Job)
    ensures (jobs + added)[job.id := job] == jobs + added[job.id := job]
    ensures (spool + AsFiles(added))[job.id := Spooled(job)] == spool + AsFiles(added[job.id := job])
  {
  }

  predicate SortedByAge(s: seq<Job>) {
    forall i, j :: 0 <= i < j < |s| ==> s[i].createdAt <= s[j].createdAt
  }

  method InsertByAge(s: seq<Job>, job: Job) returns (r: seq<Job>)
    requires SortedByAge(s)
    ensures SortedByAge(r) && multiset(r) == multiset(s) + multiset{job}
  {
    var i := |s|;
    while i > 0 && s[i - 1].createdAt > job.createdAt
      invariant 0 <= i <= |s|
      invariant i < |s| ==> s[i].createdAt > job.createdAt
    {
      i := i - 1;
    }
    r := s[..i] + [job] + s[i..];
    InsertSorted(s, i, job);
    assert s == s[..i] + s[i..];
    hide SortedByAge;
  }

  lemma InsertSorted(s: seq<Job>, i: nat, job: Job)
    requires SortedByAge(s) && i <= |s|
    requires i > 0 ==> s[i - 1].createdAt <= job.createdAt
    requires i < |s| ==> job.createdAt <= s[i].createdAt
    ensures SortedByAge(s[..i] + [job] + s[i..])
  {
    var r := s[..i] + [job] + s[i..];
    forall a, b | 0 <= a < b < |r| ensures r[a].createdAt <= r[b].createdAt {
      assert r[a] == if a < i then s[a] else if a == i then job else s[a - 1];
      assert r[b] == if b < i then s[b] else if b == i then job else s[b - 1];
    }
  }

  /** The candidates are the claimable jobs outside todo. */
  ghost predicate Gathered(candidates: seq<Job>, jobs: map<Id, Job>, inflight: set<Group>, now: int, todo: set<Id>) {
    && (forall job :: job in multiset(candidates) ==> exists id :: Claimable(jobs, inflight, now, id) && jobs[id] == job)
    && (forall id :: id !in todo && Claimable(jobs, inflight, now, id) ==> jobs[id] in multiset(candidates))
  }

  lemma GatheredNext(before: seq<Job>, candidates: seq<Job>, jobs: map<Id, Job>, inflight: set<Group>, now: int, todo: set<Id>, id: Id)
    requires Gathered(before, jobs, inflight, now, todo) && id in todo && id in jobs
    requires if Claimable(jobs, inflight, now, id) then multiset(candidates) == multiset(before) + multiset{jobs[id]}
             else candidates == before
    ensures Gathered(candidates, jobs, inflight, now, todo - {id})
  {
    forall job | job in multiset(candidates) ensures exists i :: Claimable(jobs, inflight, now, i) && jobs[i] == job {
      if job !in multiset(before) {
        assert Claimable(jobs, inflight, now, id) && jobs[id] == job;
      }
    }
  }

  class Queue {
    var jobs: map<Id, Job>
    var inflight: set<Group>
    var spool: map<Id, SpoolFile>
    const maxBackoff: int

    /** Opens the queue over what a previous process left in the spool. */
    constructor (spool: map<Id, SpoolFile>, maxBackoff: int, now: int)
      requires forall id :: id in spool && spool[id].Spooled? ==> spool[id].job.id == id
      ensures jobs == Reloaded(spool, now) && inflight == {} && this.spool == spool
      ensures forall id :: id in jobs <==> id in spool && spool[id].Spooled?
      ensures forall id :: id in jobs ==> jobs[id] == spool[id].job.(nextTry := now)
      ensures this.maxBackoff == if maxBackoff <= 0 then 300 else maxBackoff
    {
      this.jobs, this.inflight, this.spool := map[], {}, spool;
      this.maxBackoff := if maxBackoff <= 0 then 300 else maxBackoff;
      new;
      LoadSpool(now);
      assert jobs == Reloaded(spool, now);
    }

    method LoadSpool(now: int)
      requires forall id :: id in spool && spool[id].Spooled? ==> spool[id].job.id == id
      modifies this`jobs
      ensures jobs == old(jobs) + Reloaded(spool, now)
    {
      var todo := spool.Keys;
      while todo != {}
        invariant todo <= spool.Keys
        invariant jobs == old(jobs) + map id | id in spool && id !in todo && spool[id].Spooled? :: spool[id].job.(nextTry := now)
        decreases |todo|
      {
        var name :| name in todo;
        todo := todo - {name};
        if spool[name].Corrupt? {
          continue;
        }
        var job := spool[name].job;
        jobs := jobs[job.id := job.(nextTry := now)];
      }
    }

    /** ids are the random job ids; written says for each target whether its spool file could
        be written. The targets before the first failure stay enqueued. */
    method Enqueue(action: Action, kind: string, repo: string, source: string, targets: seq<string>, ids: seq<Id>,
                   written: seq<bool>, now: int)
      returns (ok: bool, ghost n: nat)
      requires |ids| == |targets| == |written|
      modifies this`jobs, this`spool
      ensures n <= |targets| && (forall i :: 0 <= i < n ==> written[i]) && (n < |targets| ==> !written[n])
      ensures ok == (n == |targets|)
      ensures jobs == old(jobs) + NewJobs(ids, action, kind, repo, source, targets, now, n)
      ensures spool == old(spool) + AsFiles(NewJobs(ids, action, kind, repo, source, targets, now, n))
    {
      hide AsFiles;
      n := 0;
      NoFiles();
      for i := 0 to |targets|
        invariant n == i && forall j :: 0 <= j < i ==> written[j]
        invariant jobs == old(jobs) + NewJobs(ids, action, kind, repo, source, targets, now, n)
        invariant spool == old(spool) + AsFiles(NewJobs(ids, action, kind, repo, source, targets, now, n))
      {
        var job := NewJob(ids[i], action, Group(targets[i], kind, repo), source, now);
        if !written[i] {
          return false, n;
        }
        EnqueueStep(old(jobs), old(spool), NewJobs(ids, action, kind, repo, source, targets, now, n), job);
        spool := spool[job.id := Spooled(job)];
        jobs := jobs[job.id := job];
        n := n + 1;
      }
      return true, n;
    }

    method ClaimDue(now: int) returns (claimed: Option<Job>)
      modifies this`inflight
      ensures claimed.None? ==> inflight == old(inflight) && forall id :: !Claimable(jobs, inflight, now, id)
      ensures claimed.Some? ==> OldestDue(jobs, old(inflight), now, claimed.value) &&
                                inflight == old(inflight) + {claimed.value.group}
      ensures claimed.None? ==> forall id :: id in jobs ==> jobs[id].nextTry > now || jobs[id].group in inflight
      ensures claimed.Some? ==>
                (exists id :: id in jobs && jobs[id] == claimed.value) &&
                claimed.value.nextTry <= now && claimed.value.group !in old(inflight) &&
                forall id :: id in jobs && jobs[id].createdAt < claimed.value.createdAt ==>
                  jobs[id].nextTry > now || jobs[id].group in old(inflight)
    {
      var candidates := Candidates(now);
      if |candidates| == 0 {
        return None;
      }
      var job := candidates[0];
      assert job in multiset(candidates);
      for i := 1 to |candidates|
        invariant job in candidates && forall j :: 0 <= j < i ==> job.createdAt <= candidates[j].createdAt
      {
        var c := candidates[i];
        if c.group == job.group && c.createdAt < job.createdAt {
          job := c;
        }
      }
      assert job in multiset(candidates);
      forall id | Claimable(jobs, inflight, now, id) ensures job.createdAt <= jobs[id].createdAt {
        assert jobs[id] in multiset(candidates);
        var k :| 0 <= k < |candidates| && candidates[k] == jobs[id];
      }
      inflight := inflight + {job.group};
      return Some(job);
    }

    /** The due jobs of idle groups, oldest first. */
    method Candidates(now: int) returns (candidates: seq<Job>)
      ensures SortedByAge(candidates)
      ensures forall job :: job in multiset(candidates) ==> exists id :: Claimable(jobs, inflight, now, id) && jobs[id] == job
      ensures forall id :: Claimable(jobs, inflight, now, id) ==> jobs[id] in multiset(candidates)
    {
      candidates := [];
      assert SortedByAge(candidates);
      var todo := jobs.Keys;
      assert Gathered(candidates, jobs, inflight, now, todo);
      while todo != {}
        invariant todo <= jobs.Keys && SortedByAge(candidates) && Gathered(candidates, jobs, inflight, now, todo)
        decreases |todo|
      {
        hide SortedByAge, Gathered;
        var id :| id in todo;
        ghost var before := candidates;
        if jobs[id].nextTry <= now && jobs[id].group !in inflight {
          candidates := InsertByAge(candidates, jobs[id]);
        }
        GatheredNext(before, candidates, jobs, inflight, now, todo, id);
        todo := todo - {id};
      }
    }

    method Unclaim(job: Job)
      modifies this`inflight
      ensures inflight == old(inflight) - {job.group}
    {
      inflight := inflight - {job.group};
    }

    /** The end of execute, under the lock. written says whether the job's file could be removed,
        or rewritten after a failure; if not, the file stays and the call goes on. */
    method Finish(job: Job, outcome: Outcome, written: bool, now: int)
      requires job.id in jobs && jobs[job.id] == job
      modifies this
      ensures inflight == old(inflight) - {job.group}
      ensures outcome.Done? ==>
                jobs == old(jobs) - {job.id} && spool == if written then old(spool) - {job.id} else old(spool)
      ensures outcome.ShuttingDown? ==> jobs == old(jobs) && spool == old(spool)
      ensures outcome.Failed? ==>
                var job' := AfterFailure(job, now, maxBackoff);
                jobs == old(jobs)[job.id := job'] &&
                spool == if written then old(spool)[job.id := Spooled(job')] else old(spool)
    {
      inflight := inflight - {job.group};
      if outcome.Done? {
        jobs := jobs - {job.id};
        if written {
          spool := spool - {job.id};
        }
        return;
      }
      if outcome.ShuttingDown? {
        return;
      }
      var failed := job.(attempts := job.attempts + 1);
      failed := failed.(nextTry := now + Backoff(failed.attempts, maxBackoff));
      jobs := jobs[job.id := failed];
      if written {
        spool := spool[job.id := Spooled(failed)];
      }
    }

    /** Makes every waiting job due and counts the jobs that were not. */
    method RetryNow(now: int) returns (n: nat)
      modifies this`jobs
      ensures jobs == map id | id in old(jobs) :: Kicked(old(jobs)[id], now)
      ensures n == |set id | id in old(jobs) && old(jobs)[id].nextTry > now|
    {
      n := 0;
      var todo := jobs.Keys;
      ghost var kicked: set<Id> := {};
      while todo != {}
        invariant todo <= jobs.Keys == old(jobs).Keys
        invariant forall id :: id in jobs ==> jobs[id] == if id in todo then old(jobs)[id] else Kicked(old(jobs)[id], now)
        invariant n == |kicked| && forall id :: id in kicked <==> id in old(jobs) && id !in todo && old(jobs)[id].nextTry > now
        decreases |todo|
      {
        var id :| id in todo;
        if jobs[id].nextTry > now {
          jobs := jobs[id := jobs[id].(nextTry := now)];
          n := n + 1;
          kicked := kicked + {id};
        }
        todo := todo - {id};
      }
      assert kicked == set id | id in old(jobs) && old(jobs)[id].nextTry > now;
    }
  }

  function Kicked(job: Job, now: int): Job {
    if job.nextTry > now then job.(nextTry := now) else job
  }

  /** A kicked job is due, and is otherwise the same job; one that was due stays as it was. */
  lemma KickedIsDue(job: Job, now: int)
    ensures Kicked(job, now).nextTry <= now && Kicked(job, now).(nextTry := job.nextTry) == job
    ensures Kicked(job, now) == job <==> job.nextTry <= now
  {
  }

  // ---------------------------------------------------------------- what a job does to a replica

  /** None is the zero digest of a file not mirrored. */
  datatype FileEntry = FileEntry(path: string, digest: Option<Digest>, size: int)

  type Manifest = seq<FileEntry>

  /** One repo on one backend. */
  datatype Store = Store(blobs: set<Digest>, manifests: map<Sha, Manifest>, refs: map<string, Sha>)

  const EMPTY: Store := Store({}, map[], map[])

  predicate CanCopy(src: Store, f: FileEntry)
    requires f.digest.Some?
  {
    f.digest.value in src.blobs && (f.size < 0 || f.size == |f.digest.value.content|)
  }

  /** Copying the blobs a manifest lists, in order, until one fails. */
  function CopyBlobs(src: Store, dst: Store, files: Manifest): (Store, bool)
    decreases |files|
  {
    if files == [] then (dst, true)
    else if files[0].digest.None? then CopyBlobs(src, dst, files[1..])
    else if files[0].digest.value in dst.blobs then CopyBlobs(src, dst, files[1..])
    else if !CanCopy(src, files[0]) then (dst, false)
    else CopyBlobs(src, dst.(blobs := dst.blobs + {files[0].digest.value}), files[1..])
  }

  /** The replica after a job, and whether the job succeeded. */
  function JobResult(src: Store, dst: Store, action: Action): (Store, bool) {
    match action
    case DeleteRepo => (EMPTY, true)
    case CopyCommit(sha, refs) =>
      if sha !in src.manifests then (dst, false)
      else
        var m := src.manifests[sha];
        var (dst', ok) := CopyBlobs(src, dst, m);
        if ok then (dst'.(manifests := dst'.manifests[sha := m], refs := dst'.refs + refs), true) else (dst', false)
  }

  /** What a job is for. A copied commit is the source's, with all its blobs, every ref of the job
      at its commit and every other ref where it was; a failed copy leaves manifests and refs alone;
      a deletion leaves nothing. */
  ghost predicate Achieves(src: Store, dst: Store, action: Action, dst': Store, ok: bool) {
    match action
    case DeleteRepo => ok && dst'.blobs == {} && dst'.manifests == map[] && dst'.refs == map[]
    case CopyCommit(sha, refs) =>
      (ok <==> sha in src.manifests && Copyable(src, dst, src.manifests[sha])) &&
      (!ok ==> dst'.manifests == dst.manifests && dst'.refs == dst.refs && dst.blobs <= dst'.blobs) &&
      (ok ==>
         sha in src.manifests && dst'.blobs == dst.blobs + Digests(src.manifests[sha]) &&
         sha in dst'.manifests && dst'.manifests[sha] == src.manifests[sha] &&
         (forall c :: c != sha ==> (c in dst'.manifests <==> c in dst.manifests) && (c in dst.manifests ==> dst'.manifests[c] == dst.manifests[c])) &&
         (forall r :: r in refs ==> r in dst'.refs && dst'.refs[r] == refs[r]) &&
         (forall r :: r !in refs ==> (r in dst'.refs <==> r in dst.refs) && (r in dst.refs ==> dst'.refs[r] == dst.refs[r])))
  }

  /** Every blob the files name is held, or the source has it and its declared size is right the
      first time it is named. */
  ghost predicate Copyable(src: Store, dst: Store, files: Manifest) {
    forall i :: 0 <= i < |files| && files[i].digest.Some? ==>
      var d := files[i].digest.value;
      d in dst.blobs || (exists j :: 0 <= j < i && files[j].digest == Some(d)) ||
      (d in src.blobs && (files[i].size < 0 || files[i].size == |d.content|))
  }

  class Backend {
    var store: Store

    constructor (store: Store)
      ensures this.store == store
    {
      this.store := store;
    }
  }

  /** runJob; a job may even name one backend as source and target. */
  method RunJob(backends: map<string, Backend>, job: Job) returns (ok: bool)
    modifies backends.Values
    ensures job.source !in backends || job.group.target !in backends ==>
              !ok && forall name :: name in backends ==> backends[name].store == old(backends[name].store)
    ensures job.source in backends && job.group.target in backends ==>
              (backends[job.group.target].store, ok) ==
              JobResult(old(backends[job.source].store), old(backends[job.group.target].store), job.action) &&
              forall name :: name in backends && backends[name] != backends[job.group.target] ==>
                backends[name].store == old(backends[name].store)
    ensures job.source in backends && job.group.target in backends ==>
              Achieves(old(backends[job.source].store), old(backends[job.group.target].store), job.action,
                       backends[job.group.target].store, ok)
  {
    if job.source in backends && job.group.target in backends {
      JobAchieves(backends[job.source].store, backends[job.group.target].store, job.action);
    }
    if job.source !in backends {
      return false;
    }
    var src := backends[job.source];
    if job.group.target !in backends {
      return false;
    }
    var dst := backends[job.group.target];
    assert src in backends.Values && dst in backends.Values;
    ok := RunJobOn(src, dst, job.action);
  }

  method RunJobOn(src: Backend, dst: Backend, action: Action) returns (ok: bool)
    modifies dst
    ensures (dst.store, ok) == JobResult(old(src.store), old(dst.store), action)
  {
    match action {
      case DeleteRepo =>
        dst.store := EMPTY;
        return true;
      case CopyCommit(sha, refs) =>
        if sha !in src.store.manifests {
          return false;
        }
        var m := src.store.manifests[sha];
        for i := 0 to |m|
          invariant src != dst ==> src.store == old(src.store)
          invariant src == dst ==> src.store == old(src.store)
          invariant CopyBlobs(old(src.store), old(dst.store), m) == CopyBlobs(old(src.store), dst.store, m[i..])
        {
          var f := m[i];
          assert m[i..][1..] == m[i + 1..];
          if f.digest.None? {
            continue;
          }
          if f.digest.value in dst.store.blobs {
            continue;
          }
          if !CanCopy(src.store, f) {
            return false;
          }
          dst.store := dst.store.(blobs := dst.store.blobs + {f.digest.value});
        }
        dst.store := dst.store.(manifests := dst.store.manifests[sha := m]);
        dst.store := dst.store.(refs := dst.store.refs + refs);
        return true;
    }
  }

  function Digests(files: Manifest): set<Digest> {
    set i | 0 <= i < |files| && files[i].digest.Some? :: files[i].digest.value
  }

  /** Copying leaves a prefix of the manifest's blobs; it succeeds with all of them. */
  lemma {:induction false} CopyBlobsAddsPrefix(src: Store, dst: Store, files: Manifest)
    ensures var (dst', ok) := CopyBlobs(src, dst, files);
            dst'.manifests == dst.manifests && dst'.refs == dst.refs &&
            (exists n :: 0 <= n <= |files| && dst'.blobs == dst.blobs + Digests(files[..n]) &&
                         (ok ==> n == |files|) &&
                         (!ok ==> n < |files| && files[n].digest.Some? && files[n].digest.value !in dst'.blobs &&
                                  !CanCopy(src, files[n])))
    decreases |files|
  {
    if files == [] {
      assert dst.blobs == dst.blobs + Digests(files[..0]);
    } else {
      var f := files[0];
      var next := if f.digest.Some? && f.digest.value !in dst.blobs && CanCopy(src, f)
                  then dst.(blobs := dst.blobs + {f.digest.value}) else dst;
      if f.digest.Some? && f.digest.value !in dst.blobs && !CanCopy(src, f) {
        assert dst.blobs == dst.blobs + Digests(files[..0]);
      } else {
        CopyBlobsAddsPrefix(src, next, files[1..]);
        var (dst', ok) := CopyBlobs(src, next, files[1..]);
        var n :| 0 <= n <= |files| - 1 && dst'.blobs == next.blobs + Digests(files[1..][..n]) &&
                 (ok ==> n == |files| - 1) &&
                 (!ok ==> n < |files| - 1 && files[1..][n].digest.Some? && files[1..][n].digest.value !in dst'.blobs &&
                          !CanCopy(src, files[1..][n]));
        DigestsCons(files, n);
        assert dst'.blobs == dst.blobs + Digests(files[..n + 1]);
      }
    }
  }

  lemma DigestsCons(files: Manifest, n: nat)
    requires n < |files|
    ensures Digests(files[..n + 1]) ==
            Digests(files[1..][..n]) + if files[0].digest.Some? then {files[0].digest.value} else {}
  {
    var tail, all := files[1..][..n], files[..n + 1];
    forall d | d in Digests(tail) ensures d in Digests(all) {
      var i :| 0 <= i < |tail| && tail[i].digest == Some(d);
      assert all[i + 1] == tail[i];
    }
    forall d | d in Digests(all) && files[0].digest != Some(d) ensures d in Digests(tail) {
      var i :| 0 <= i < |all| && all[i].digest == Some(d);
      assert i > 0 && tail[i - 1] == all[i];
    }
    if files[0].digest.Some? {
      assert all[0] == files[0];
    }
  }

  /** Nothing to copy when every blob is held. */
  lemma {:induction false} CopyNothing(src: Store, dst: Store, files: Manifest)
    requires Digests(files) <= dst.blobs
    ensures CopyBlobs(src, dst, files) == (dst, true)
    decreases |files|
  {
    if files != [] {
      forall d | d in Digests(files[1..]) ensures d in dst.blobs {
        var i :| 0 <= i < |files| - 1 && files[1..][i].digest == Some(d);
        assert files[i + 1].digest == Some(d);
      }
      assert files[0].digest.Some? ==> files[0].digest.value in Digests(files);
      CopyNothing(src, dst, files[1..]);
    }
  }

  lemma {:induction false} CopiesExactlyWhen(src: Store, dst: Store, files: Manifest)
    ensures CopyBlobs(src, dst, files).1 <==> Copyable(src, dst, files)
    decreases |files|
  {
    hide Copyable;
    if files == [] {
      assert Copyable(src, dst, files) by { NothingToCopy(src, dst); }
    } else {
      var f := files[0];
      if f.digest.Some? && f.digest.value !in dst.blobs && !CanCopy(src, f) {
        FirstFails(src, dst, files);
      } else {
        var next := if f.digest.Some? then dst.(blobs := dst.blobs + {f.digest.value}) else dst;
        CopiesExactlyWhen(src, next, files[1..]);
        assert f.digest.Some? && f.digest.value in dst.blobs ==> next == dst by {
          if f.digest.Some? && f.digest.value in dst.blobs { assert next.blobs == dst.blobs; }
        }
        RestCopyable(src, dst, next, files);
      }
    }
  }

  lemma NothingToCopy(src: Store, dst: Store)
    ensures Copyable(src, dst, [])
  {
  }

  lemma FirstFails(src: Store, dst: Store, files: Manifest)
    requires files != [] && files[0].digest.Some? && files[0].digest.value !in dst.blobs && !CanCopy(src, files[0])
    ensures !Copyable(src, dst, files)
  {
    assert files[0].digest.Some?;
  }

  lemma RestCopyable(src: Store, dst: Store, next: Store, files: Manifest)
    requires files != []
    requires files[0].digest.None? || files[0].digest.value in dst.blobs || CanCopy(src, files[0])
    requires next == if files[0].digest.Some? then dst.(blobs := dst.blobs + {files[0].digest.value}) else dst
    ensures Copyable(src, dst, files) <==> Copyable(src, next, files[1..])
  {
    var rest := files[1..];
    if Copyable(src, dst, files) {
      forall i | 0 <= i < |rest| && rest[i].digest.Some?
        ensures var d := rest[i].digest.value;
                d in next.blobs || (exists j :: 0 <= j < i && rest[j].digest == Some(d)) ||
                (d in src.blobs && (rest[i].size < 0 || rest[i].size == |d.content|))
      {
        var d := rest[i].digest.value;
        assert files[i + 1] == rest[i];
        if j :| 0 <= j < i + 1 && files[j].digest == Some(d) {
          assert j > 0 ==> rest[j - 1].digest == Some(d);
        }
      }
    }
    if Copyable(src, next, rest) {
      forall i | 0 <= i < |files| && files[i].digest.Some?
        ensures var d := files[i].digest.value;
                d in dst.blobs || (exists j :: 0 <= j < i && files[j].digest == Some(d)) ||
                (d in src.blobs && (files[i].size < 0 || files[i].size == |d.content|))
      {
        var d := files[i].digest.value;
        if i > 0 {
          assert rest[i - 1] == files[i];
          if j :| 0 <= j < i - 1 && rest[j].digest == Some(d) {
            assert files[j + 1].digest == Some(d);
          }
          assert files[0].digest == Some(d) || d !in next.blobs || d in dst.blobs;
        }
      }
    }
  }

  lemma JobAchieves(src: Store, dst: Store, action: Action)
    ensures var (dst', ok) := JobResult(src, dst, action);
            Achieves(src, dst, action, dst', ok)
  {
    if action.CopyCommit? && action.sha in src.manifests {
      var m := src.manifests[action.sha];
      CopyBlobsAddsPrefix(src, dst, m);
      CopiesExactlyWhen(src, dst, m);
      assert m[..|m|] == m;
      hide CopyBlobs, Copyable, Digests;
    }
  }

  /** Running a completed job again with no other job in between changes nothing. */
  lemma JobTwice(src: Store, dst: Store, action: Action)
    requires JobResult(src, dst, action).1
    ensures JobResult(src, JobResult(src, dst, action).0, action) == JobResult(src, dst, action)
  {
    if action.CopyCommit? {
      var m := src.manifests[action.sha];
      CopyBlobsAddsPrefix(src, dst, m);
      assert m[..|m|] == m;
      var dst' := JobResult(src, dst, action).0;
      CopyNothing(src, dst', m);
      hide CopyBlobs;
      assert dst'.manifests[action.sha := m] == dst'.manifests;
      assert dst'.refs + action.refs == dst'.refs;
    }
  }
}
