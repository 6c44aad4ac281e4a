/** The filesystem backend's snapshot links: PutManifest and PutBlob take no lock, and each
    side publishes before it checks (internal/backend/fsbackend/fsbackend.go). One repo. */
module FsSnapshots {
  import opened Common

  type Sha = string
  type Path = string

  /** A manifest entry; None is the zero digest of a file not mirrored. */
  datatype File = File(path: Path, digest: Option<Digest>)

  type Links = map<(Sha, Path), Digest>

  // ---------------------------------------------------------------- path helpers

  function Segments(p: Path): (segs: seq<Path>)
    ensures segs != []
  {
    if p == [] then [""]
    else
      var rest := Segments(p[1..]);
      if p[0] == '/' then [""] + rest else [[p[0]] + rest[0]] + rest[1..]
  }

  /** A safe relative path; cleaning leaves such a path as it is. */
  predicate ValidRelPath(p: Path) {
    '\\' !in p && forall i :: 0 <= i < |Segments(p)| ==> Segments(p)[i] !in ["", ".", ".."]
  }

  function JoinSegments(segs: seq<Path>): Path {
    if segs == [] then "" else if |segs| == 1 then segs[0] else segs[0] + "/" + JoinSegments(segs[1..])
  }

  /** The segments are the pieces of the path between its slashes. */
  lemma {:induction false} SegmentsMean(p: Path)
    ensures JoinSegments(Segments(p)) == p && forall i :: 0 <= i < |Segments(p)| ==> '/' !in Segments(p)[i]
  {
    if p != [] {
      SegmentsMean(p[1..]);
      var rest := Segments(p[1..]);
      assert p == [p[0]] + p[1..];
      if p[0] == '/' {
        assert ([""] + rest)[1..] == rest;
      } else {
        assert ([[p[0]] + rest[0]] + rest[1..])[1..] == rest[1..];
      }
    }
  }

  /** A safe path does not begin or end with a slash and has no empty, "." or ".." piece between
      slashes, so following it from a directory only goes down. */
  lemma ValidRelPathMeans(p: Path)
    ensures ValidRelPath(p) <==>
            '\\' !in p && exists segs: seq<Path> ::
              segs != [] && JoinSegments(segs) == p && forall i :: 0 <= i < |segs| ==> '/' !in segs[i] && segs[i] !in ["", ".", ".."]
  {
    SegmentsMean(p);
    if ValidRelPath(p) {
      assert JoinSegments(Segments(p)) == p;
    }
    forall segs: seq<Path> | segs != [] && JoinSegments(segs) == p && forall i :: 0 <= i < |segs| ==> '/' !in segs[i]
      ensures Segments(p) == segs
    {
      SegmentsOfJoin(segs);
    }
  }

  lemma {:induction false} SegmentsOfJoin(segs: seq<Path>)
    requires segs != [] && forall i :: 0 <= i < |segs| ==> '/' !in segs[i]
    ensures Segments(JoinSegments(segs)) == segs
    decreases |segs|
  {
    if |segs| == 1 {
      PlainSegment(segs[0], []);
      assert segs[0] + [] == segs[0];
    } else {
      SegmentsOfJoin(segs[1..]);
      var more := JoinSegments(segs[1..]);
      assert JoinSegments(segs) == segs[0] + ("/" + more);
      PlainSegment(segs[0], "/" + more);
      hide Segments, JoinSegments;
      assert ("/" + more)[1..] == more;
      assert segs == [segs[0]] + segs[1..];
    }
  }

  lemma {:induction false} PlainSegment(a: Path, more: Path)
    requires '/' !in a && (more == [] || more[0] == '/')
    ensures Segments(a + more) == if more == [] then [a] else [a] + Segments(more[1..])
  {
    if a == [] {
      assert a + more == more;
    } else {
      PlainSegment(a[1..], more);
      var rest := Segments(a[1..] + more);
      assert (a + more)[1..] == a[1..] + more && (a + more)[0] == a[0] && a[0] in a;
      assert Segments(a + more) == [[a[0]] + rest[0]] + rest[1..];
      hide Segments;
      assert [a[0]] + a[1..] == a;
    }
  }

  // ---------------------------------------------------------------- the calls, one at a time

  predicate Held(f: File, blobs: set<Digest>) { f.digest.Some? && f.digest.value in blobs }

  /** A look at the blob of file i finds it; unseen are the files for which the look fails, which
      counts as a blob that is not there. */
  predicate Found(files: seq<File>, blobs: set<Digest>, unseen: set<nat>, i: nat) {
    i < |files| && Held(files[i], blobs) && i !in unseen
  }

  /** Links made for the files whose blob is found, in file order. */
  function LinkHeld(links: Links, sha: Sha, files: seq<File>, blobs: set<Digest>, unseen: set<nat>): Links {
    if files == [] then links
    else
      var n := |files| - 1;
      var before := LinkHeld(links, sha, files[..n], blobs, unseen);
      if Found(files, blobs, unseen, n) then before[(sha, files[n].path) := files[n].digest.value] else before
  }

  /** The snapshot entries that name a digest. */
  function EntriesOf(manifests: map<Sha, seq<File>>, d: Digest): set<(Sha, Path)> {
    set sha, i | sha in manifests && 0 <= i < |manifests[sha]| && manifests[sha][i].digest == Some(d) ::
      (sha, manifests[sha][i].path)
  }

  function LinkAll(links: Links, entries: set<(Sha, Path)>, d: Digest): Links {
    links + map e | e in entries :: d
  }

  /** Every entry naming d is linked to it. */
  predicate AllLinked(links: Links, manifests: map<Sha, seq<File>>, d: Digest) {
    forall e :: e in EntriesOf(manifests, d) ==> e in links && links[e] == d
  }

  function Unread(manifests: map<Sha, seq<File>>, unread: set<Sha>): map<Sha, seq<File>> {
    map sha | sha in manifests && sha in unread :: manifests[sha]
  }

  predicate GoodRef(r: (string, Sha)) { IsCommitSHA(r.1) && ValidRelPath(r.0) }

  predicate GoodManifest(sha: Sha, files: seq<File>) {
    IsCommitSHA(sha) && forall i :: 0 <= i < |files| ==> ValidRelPath(files[i].path)
  }

  /** Refs written in the given order until the first bad one. */
  function WrittenRefs(refs: map<string, Sha>, updates: seq<(string, Sha)>): map<string, Sha>
    decreases |updates|
  {
    if updates == [] then refs
    else if !GoodRef(updates[0]) then refs
    else WrittenRefs(refs[updates[0].0 := updates[0].1], updates[1..])
  }

  /** No later update names the same ref. */
  predicate LastUpdate(updates: seq<(string, Sha)>, k: nat) {
    k < |updates| && forall j :: k < j < |updates| ==> updates[j].0 != updates[k].0
  }

  predicate Updates(updates: seq<(string, Sha)>, r: string) { exists k :: 0 <= k < |updates| && updates[k].0 == r }

  /** Every ref named points at the last commit given for it, and every other ref stays. */
  ghost predicate UpdatesApplied(refs: map<string, Sha>, updates: seq<(string, Sha)>, refs': map<string, Sha>) {
    && (forall k: nat :: LastUpdate(updates, k) ==> updates[k].0 in refs' && refs'[updates[k].0] == updates[k].1)
    && (forall r :: !Updates(updates, r) ==> (r in refs' <==> r in refs) && (r in refs ==> refs'[r] == refs[r]))
  }

  /** The first n updates are good and the next one, if there is one, is not. */
  predicate StopsAfter(updates: seq<(string, Sha)>, n: nat) {
    n <= |updates| && (forall i :: 0 <= i < n ==> GoodRef(updates[i])) && (n < |updates| ==> !GoodRef(updates[n]))
  }

  lemma {:induction false} WrittenRefsMean(refs: map<string, Sha>, updates: seq<(string, Sha)>) returns (n: nat)
    ensures StopsAfter(updates, n) && UpdatesApplied(refs, updates[..n], WrittenRefs(refs, updates))
    decreases |updates|
  {
    hide GoodRef;
    if updates == [] || !GoodRef(updates[0]) {
      n := 0;
    } else {
      var u, rest := updates[0], updates[1..];
      var m := WrittenRefsMean(refs[u.0 := u.1], rest);
      n := m + 1;
      assert updates[..n] == [u] + rest[..m];
      UpdateFirst(refs, u, rest[..m], WrittenRefs(refs, updates));
    }
  }

  lemma UpdateFirst(refs: map<string, Sha>, u: (string, Sha), rest: seq<(string, Sha)>, refs': map<string, Sha>)
    requires UpdatesApplied(refs[u.0 := u.1], rest, refs')
    ensures UpdatesApplied(refs, [u] + rest, refs')
  {
    hide LastUpdate, Updates;
    var all := [u] + rest;
    forall k: nat | LastUpdate(all, k) ensures k < |all| && all[k].0 in refs' && refs'[all[k].0] == all[k].1 {
      LastOfCons(u, rest, k);
    }
    forall r | !Updates(all, r) ensures !Updates(rest, r) && r != u.0 {
      NamedByCons(u, rest, r);
    }
  }

  lemma LastOfCons(u: (string, Sha), rest: seq<(string, Sha)>, k: nat)
    requires LastUpdate([u] + rest, k)
    ensures k <= |rest| && if k == 0 then !Updates(rest, u.0) else LastUpdate(rest, k - 1)
  {
    var all := [u] + rest;
    assert forall j :: 0 <= j < |rest| ==> rest[j] == all[j + 1];
  }

  lemma NamedByCons(u: (string, Sha), rest: seq<(string, Sha)>, r: string)
    requires !Updates([u] + rest, r)
    ensures !Updates(rest, r) && r != u.0
  {
    var all := [u] + rest;
    assert all[0] == u && forall j :: 0 <= j < |rest| ==> rest[j] == all[j + 1];
  }

  predicate Matches(d: Digest, data: Bytes) { d.content == data }

  class FsBackend {
    var manifests: map<Sha, seq<File>>
    var blobs: set<Digest>
    var links: Links
    var refs: map<string, Sha>

    constructor ()
      ensures manifests == map[] && blobs == {} && links == map[] && refs == map[]
    {
      manifests, blobs, links, refs := map[], {}, map[], map[];
    }

    /** updates lists the refs map in the order its entries are visited; unseen are the files
        whose blob cannot be looked at. */
    method PutManifest(sha: Sha, files: seq<File>, updates: seq<(string, Sha)>, unseen: set<nat>) returns (ok: bool)
      modifies this
      ensures blobs == old(blobs)
      ensures ok <==> IsCommitSHA(sha) && (forall i :: 0 <= i < |files| ==> ValidRelPath(files[i].path)) &&
                      forall i :: 0 <= i < |updates| ==> IsCommitSHA(updates[i].1) && ValidRelPath(updates[i].0)
      ensures !GoodManifest(sha, files) ==> manifests == old(manifests) && links == old(links) && refs == old(refs)
      ensures GoodManifest(sha, files) ==>
                manifests == old(manifests)[sha := files] && links == LinkHeld(old(links), sha, files, blobs, unseen) &&
                refs == WrittenRefs(old(refs), updates)
      ensures GoodManifest(sha, files) ==> exists n: nat :: StopsAfter(updates, n) && UpdatesApplied(old(refs), updates[..n], refs)
      ensures ok ==> UpdatesApplied(old(refs), updates, refs)
    {
      hide IsCommitSHA, ValidRelPath, UpdatesApplied;
      ghost var n := WrittenRefsMean(refs, updates);
      assert n == |updates| ==> updates[..n] == updates;
      if !IsCommitSHA(sha) {
        return false;
      }
      for i := 0 to |files|
        invariant forall j :: 0 <= j < i ==> ValidRelPath(files[j].path)
      {
        if !ValidRelPath(files[i].path) {
          return false;
        }
      }
      manifests := manifests[sha := files];
      for i := 0 to |files|
        invariant manifests == old(manifests)[sha := files] && blobs == old(blobs) && refs == old(refs)
        invariant links == LinkHeld(old(links), sha, files[..i], blobs, unseen)
      {
        assert files[..i + 1][..i] == files[..i];
        var f := files[i];
        if f.digest.Some? && f.digest.value in blobs && i !in unseen {
          links := links[(sha, f.path) := f.digest.value];
        }
      }
      assert files[..|files|] == files;
      for i := 0 to |updates|
        invariant manifests == old(manifests)[sha := files] && blobs == old(blobs)
        invariant links == LinkHeld(old(links), sha, files, blobs, unseen)
        invariant forall j :: 0 <= j < i ==> GoodRef(updates[j])
        invariant WrittenRefs(old(refs), updates) == WrittenRefs(refs, updates[i..])
      {
        if !GoodRef(updates[i]) {
          return false;
        }
        refs := refs[updates[i].0 := updates[i].1];
      }
      return true;
    }

    /** size is negative when the caller declares none; seen says whether the first look can see a
        blob that is there, and unread are the manifests that cannot be read. A successful call
        leaves linked exactly what was linked and what the manifests it read name. */
    method PutBlob(d: Digest, data: Bytes, size: int, seen: bool, unread: set<Sha>) returns (ok: bool)
      modifies this
      ensures manifests == old(manifests) && refs == old(refs)
      ensures ok == ((d in old(blobs) && seen) || (d.content == data && (size < 0 || size == |data|)))
      ensures !ok || (d in old(blobs) && seen) ==> blobs == old(blobs) && links == old(links)
      ensures ok && !(d in old(blobs) && seen) ==>
                blobs == old(blobs) + {d} && links == LinkAll(old(links), EntriesOf(manifests - unread, d), d)
      ensures ok ==> (AllLinked(links, manifests, d) <==>
                      AllLinked(old(links), if d in old(blobs) && seen then manifests else Unread(manifests, unread), d))
    {
      if d in blobs && seen {
        return true;
      }
      if !Matches(d, data) {
        return false;
      }
      if size >= 0 && |data| != size {
        return false;
      }
      blobs := blobs + {d};
      LinkBlobIntoSnapshots(d, unread);
      LinkedExactly(old(links), manifests, unread, d);
      return true;
    }

    /** A manifest that cannot be read is passed over, and the call still succeeds. */
    method LinkBlobIntoSnapshots(d: Digest, unread: set<Sha>)
      modifies this`links
      ensures links == LinkAll(old(links), EntriesOf(manifests - unread, d), d)
    {
      hide EntriesOf, LinkAll;
      var todo := manifests.Keys;
      ghost var done: map<Sha, seq<File>> := map[];
      NoEntries(d);
      LinkNone(links, d);
      while todo != {}
        invariant todo <= manifests.Keys
        invariant done == map s | s in manifests && s !in todo && s !in unread :: manifests[s]
        invariant links == LinkAll(old(links), EntriesOf(done, d), d)
        decreases |todo|
      {
        var sha :| sha in todo;
        todo := todo - {sha};
        if sha !in unread {
          LinkIntoSnapshot(sha, manifests[sha], d);
          EntriesJoin(done, sha, manifests[sha], d);
          LinkBoth(old(links), EntriesOf(done, d), EntriesOf(map[sha := manifests[sha]], d), d);
          done := done[sha := manifests[sha]];
        }
      }
      assert done == manifests - unread;
    }

    method LinkIntoSnapshot(sha: Sha, files: seq<File>, d: Digest)
      modifies this`links
      ensures links == LinkAll(old(links), EntriesOf(map[sha := files], d), d)
    {
      hide EntriesOf, LinkAll;
      NoEntriesIn(sha, d);
      LinkNone(links, d);
      assert files[..0] == [];
      for i := 0 to |files|
        invariant links == LinkAll(old(links), EntriesOf(map[sha := files[..i]], d), d)
      {
        EntriesGrow(sha, files, i, d);
        if files[i].digest == Some(d) {
          LinkOneMore(old(links), EntriesOf(map[sha := files[..i]], d), (sha, files[i].path), d);
          links := links[(sha, files[i].path) := d];
        }
      }
      assert files[..|files|] == files;
    }
  }

  /** Entries of readable manifests and of the others are apart. */
  lemma EntriesApart(manifests: map<Sha, seq<File>>, unread: set<Sha>, d: Digest)
    ensures EntriesOf(manifests, d) == EntriesOf(manifests - unread, d) + EntriesOf(Unread(manifests, unread), d)
    ensures EntriesOf(manifests - unread, d) !! EntriesOf(Unread(manifests, unread), d)
  {
    var read, others := manifests - unread, Unread(manifests, unread);
    forall e | e in EntriesOf(manifests, d) ensures e in EntriesOf(read, d) || e in EntriesOf(others, d) {
      var sha, i :| sha in manifests && 0 <= i < |manifests[sha]| && manifests[sha][i].digest == Some(d) &&
                    e == (sha, manifests[sha][i].path);
      if sha in unread { assert others[sha][i] == manifests[sha][i]; } else { assert read[sha][i] == manifests[sha][i]; }
    }
    forall e | e in EntriesOf(read, d) ensures e in EntriesOf(manifests, d) && e.0 !in unread {
      var sha, i :| sha in read && 0 <= i < |read[sha]| && read[sha][i].digest == Some(d) && e == (sha, read[sha][i].path);
      assert manifests[sha][i] == read[sha][i];
    }
    forall e | e in EntriesOf(others, d) ensures e in EntriesOf(manifests, d) && e.0 in unread {
      var sha, i :| sha in others && 0 <= i < |others[sha]| && others[sha][i].digest == Some(d) && e == (sha, others[sha][i].path);
      assert manifests[sha][i] == others[sha][i];
    }
  }

  /** Linking what the readable manifests name leaves every entry linked if and only if those
      of the others were linked before. */
  lemma LinkedExactly(links: Links, manifests: map<Sha, seq<File>>, unread: set<Sha>, d: Digest)
    ensures AllLinked(LinkAll(links, EntriesOf(manifests - unread, d), d), manifests, d) <==>
            AllLinked(links, Unread(manifests, unread), d)
  {
    EntriesApart(manifests, unread, d);
    hide EntriesOf, Unread;
  }

  lemma LinkNone(links: Links, d: Digest)
    ensures LinkAll(links, {}, d) == links
  {
  }

  lemma LinkBoth(links: Links, a: set<(Sha, Path)>, b: set<(Sha, Path)>, d: Digest)
    ensures LinkAll(LinkAll(links, a, d), b, d) == LinkAll(links, a + b, d)
  {
  }

  lemma LinkOneMore(links: Links, a: set<(Sha, Path)>, e: (Sha, Path), d: Digest)
    ensures LinkAll(links, a, d)[e := d] == LinkAll(links, a + {e}, d)
  {
  }

  lemma NoEntries(d: Digest)
    ensures EntriesOf(map[], d) == {}
  {
  }

  lemma NoEntriesIn(sha: Sha, d: Digest)
    ensures EntriesOf(map[sha := []], d) == {}
  {
  }

  lemma EntriesGrow(sha: Sha, files: seq<File>, i: nat, d: Digest)
    requires i < |files|
    ensures EntriesOf(map[sha := files[..i + 1]], d) ==
            if files[i].digest == Some(d) then EntriesOf(map[sha := files[..i]], d) + {(sha, files[i].path)}
            else EntriesOf(map[sha := files[..i]], d)
  {
    var m, m' := map[sha := files[..i]], map[sha := files[..i + 1]];
    forall e | e in EntriesOf(m, d) ensures e in EntriesOf(m', d) {
      var j :| 0 <= j < i && files[..i][j].digest == Some(d) && e == (sha, files[..i][j].path);
      assert m'[sha][j] == files[j];
    }
    if files[i].digest == Some(d) {
      assert m'[sha][i] == files[i];
    }
    forall e | e in EntriesOf(m', d) && (files[i].digest != Some(d) || e != (sha, files[i].path)) ensures e in EntriesOf(m, d) {
      var j :| 0 <= j < i + 1 && files[..i + 1][j].digest == Some(d) && e == (sha, files[..i + 1][j].path);
      assert j != i;
      assert m[sha][j] == files[j];
    }
  }

  lemma EntriesJoin(done: map<Sha, seq<File>>, sha: Sha, files: seq<File>, d: Digest)
    requires sha !in done
    ensures EntriesOf(done[sha := files], d) == EntriesOf(done, d) + EntriesOf(map[sha := files], d)
  {
    var one, all := map[sha := files], done[sha := files];
    forall e | e in EntriesOf(done, d) ensures e in EntriesOf(all, d) {
      var s, i :| s in done && 0 <= i < |done[s]| && done[s][i].digest == Some(d) && e == (s, done[s][i].path);
      assert all[s][i] == done[s][i];
    }
    forall e | e in EntriesOf(one, d) ensures e in EntriesOf(all, d) {
      var i :| 0 <= i < |one[sha]| && one[sha][i].digest == Some(d) && e == (sha, one[sha][i].path);
      assert all[sha][i] == one[sha][i];
    }
    forall e | e in EntriesOf(all, d) ensures e in EntriesOf(done, d) + EntriesOf(one, d) {
      var s, i :| s in all && 0 <= i < |all[s]| && all[s][i].digest == Some(d) && e == (s, all[s][i].path);
      if s == sha { assert one[sha][i] == all[s][i]; } else { assert done[s][i] == all[s][i]; }
    }
  }

  // ---------------------------------------------------------------- what linking achieves

  /** The entry whose blob is found and that no later such entry with its path overrides. */
  predicate LastFound(files: seq<File>, blobs: set<Digest>, unseen: set<nat>, i: nat) {
    Found(files, blobs, unseen, i) &&
    forall j: nat :: i < j < |files| && files[j].path == files[i].path ==> !Found(files, blobs, unseen, j)
  }

  /** PutManifest links exactly the files whose blob it finds and leaves every other link. */
  lemma {:induction false} LinkHeldExactly(links: Links, sha: Sha, files: seq<File>, blobs: set<Digest>, unseen: set<nat>,
                                           e: (Sha, Path))
    ensures var linked := LinkHeld(links, sha, files, blobs, unseen);
            var isFound := e.0 == sha && exists i: nat :: LastFound(files, blobs, unseen, i) && files[i].path == e.1;
            (!isFound ==> (e in linked <==> e in links) && (e in linked ==> linked[e] == links[e])) &&
            forall i: nat :: e.0 == sha && LastFound(files, blobs, unseen, i) && files[i].path == e.1 ==>
              e in linked && linked[e] == files[i].digest.value
  {
    if files != [] {
      var n := |files| - 1;
      LinkHeldExactly(links, sha, files[..n], blobs, unseen, e);
      if e == (sha, files[n].path) && Found(files, blobs, unseen, n) {
        assert LastFound(files, blobs, unseen, n);
      } else if e.0 == sha {
        LastFoundInit(files, blobs, unseen, e.1);
      }
    }
  }

  lemma LastFoundInit(files: seq<File>, blobs: set<Digest>, unseen: set<nat>, p: Path)
    requires files != [] && !(files[|files| - 1].path == p && Found(files, blobs, unseen, |files| - 1))
    ensures forall i: nat ::
              LastFound(files, blobs, unseen, i) && files[i].path == p <==>
              LastFound(files[..|files| - 1], blobs, unseen, i) && files[..|files| - 1][i].path == p
  {
    hide Held;
    var init := files[..|files| - 1];
    forall i: nat
      ensures LastFound(files, blobs, unseen, i) && files[i].path == p <==> LastFound(init, blobs, unseen, i) && init[i].path == p
    {
      if i < |init| {
        assert forall j: nat :: i < j < |init| ==> init[j] == files[j];
      }
    }
  }

  // ---------------------------------------------------------------- calls interleaved

  datatype Call = PutManifestCall(sha: Sha) | PutBlobCall(digest: Digest)

  /** Where a call stands between two file operations. */
  datatype Pc =
    | Begin
    | Stat(i: nat)
    | LinkFile(i: nat)
    | Uploaded
    | Renamed
    | Scanning(shas: seq<Sha>)
    | Linking(sha: Sha, rest: seq<Sha>, k: nat)
    | Returned

  datatype Thread = Thread(call: Call, pc: Pc, failed: bool)

  /** missed records the manifest entries that a failed read kept a call from linking. */
  datatype State = State(manifests: set<Sha>, blobs: set<Digest>, links: Links, threads: map<nat, Thread>, missed: set<(Sha, nat)>)

  const EMPTY := State({}, {}, map[], map[], {})

  function At(s: State, t: nat, pc: Pc): State
    requires t in s.threads
  {
    s.(threads := s.threads[t := s.threads[t].(pc := pc)])
  }

  function Link(s: State, sha: Sha, f: File): State
    requires f.digest.Some?
  {
    s.(links := s.links[(sha, f.path) := f.digest.value])
  }

  /** The next file operation of a call. */
  function Advance(content: Sha -> seq<File>, s: State, t: nat): State
    requires t in s.threads
  {
    var th := s.threads[t];
    match th.call
    case PutManifestCall(sha) => AdvanceManifest(s, t, sha, content(sha))
    case PutBlobCall(d) => AdvanceBlob(content, s, t, d)
  }

  function AdvanceManifest(s: State, t: nat, sha: Sha, files: seq<File>): State
    requires t in s.threads
  {
    match s.threads[t].pc
    case Begin => At(s, t, Stat(0)).(manifests := s.manifests + {sha})
    case Stat(i) =>
      if i >= |files| then At(s, t, Returned)
      else if Held(files[i], s.blobs) then At(s, t, LinkFile(i))
      else At(s, t, Stat(i + 1))
    case LinkFile(i) =>
      if i < |files| && files[i].digest.Some? then At(Link(s, sha, files[i]), t, Stat(i + 1)) else s
    case _ => s
  }

  function AdvanceBlob(content: Sha -> seq<File>, s: State, t: nat, d: Digest): State
    requires t in s.threads
  {
    match s.threads[t].pc
    case Begin => At(s, t, if d in s.blobs then Returned else Uploaded)
    case Uploaded => At(s, t, Renamed).(blobs := s.blobs + {d})
    case Scanning(shas) =>
      if shas == [] then At(s, t, Returned)
      else if shas[0] in s.manifests then At(s, t, Linking(shas[0], shas[1..], 0))
      else At(s, t, Scanning(shas[1..]))
    case Linking(sha, rest, k) =>
      if k >= |content(sha)| then At(s, t, Scanning(rest))
      else if content(sha)[k].digest == Some(d) then At(Link(s, sha, content(sha)[k]), t, Linking(sha, rest, k + 1))
      else At(s, t, Linking(sha, rest, k + 1))
    case _ => s
  }

  function Started(s: State, t: nat, call: Call): State {
    s.(threads := s.threads[t := Thread(call, Begin, false)])
  }

  ghost predicate StartStep(s: State, s': State) {
    exists t: nat, call :: t !in s.threads && s' == Started(s, t, call)
  }

  ghost predicate WorkStep(content: Sha -> seq<File>, s: State, s': State) {
    exists t :: t in s.threads && !s.threads[t].failed && s' == Advance(content, s, t)
  }

  /** Listing the manifest directory: it names every manifest stored by then, in any order,
      and may or may not name one that is just being written. */
  ghost predicate ListStep(s: State, s': State) {
    exists t, shas :: t in s.threads && !s.threads[t].failed && s.threads[t].pc.Renamed? && Lists(shas, s.manifests) &&
                      s' == At(s, t, Scanning(shas))
  }

  predicate Lists(shas: seq<Sha>, manifests: set<Sha>) {
    forall sha :: sha in manifests ==> sha in shas
  }

  /** A file operation fails and the call returns its error. A process that stops fails all its
      calls. */
  ghost predicate FailStep(late: bool, s: State, s': State) {
    exists t :: t in s.threads && MayFail(late, s.threads[t].pc) && s' == FailedAt(s, t)
  }

  /** Early failures come before a call has published its manifest or blob. */
  predicate MayFail(late: bool, pc: Pc) { pc.Begin? || pc.Uploaded? || (late && !pc.Returned?) }

  function FailedAt(s: State, t: nat): State
    requires t in s.threads
  {
    s.(threads := s.threads[t := s.threads[t].(failed := true)])
  }

  /** The entries of a manifest that name d. */
  function Naming(files: seq<File>, sha: Sha, d: Digest): set<(Sha, nat)> {
    set i: nat | i < |files| && files[i].digest == Some(d) :: (sha, i)
  }

  /** A read fails and the call goes on: a blob that cannot be looked at counts as absent, and a
      manifest that cannot be read or decoded is passed over. */
  function Swallowed(content: Sha -> seq<File>, s: State, t: nat): State
    requires t in s.threads
  {
    match s.threads[t].call
    case PutManifestCall(sha) => Unseen(s, t, sha, content(sha))
    case PutBlobCall(d) => PassedOver(content, s, t, d)
  }

  function Unseen(s: State, t: nat, sha: Sha, files: seq<File>): State
    requires t in s.threads
  {
    match s.threads[t].pc
    case Stat(i) =>
      if i < |files| then
        At(s, t, Stat(i + 1)).(missed := s.missed + if Held(files[i], s.blobs) then {(sha, i)} else {})
      else s
    case _ => s
  }

  /** The same of a listed manifest, if it is stored. */
  function NamingIn(content: Sha -> seq<File>, manifests: set<Sha>, sha: Sha, d: Digest): set<(Sha, nat)> {
    if sha in manifests then Naming(content(sha), sha, d) else {}
  }

  function PassedOver(content: Sha -> seq<File>, s: State, t: nat, d: Digest): State
    requires t in s.threads
  {
    match s.threads[t].pc
    case Begin => At(s, t, Uploaded)
    case Scanning(shas) =>
      if shas != [] then
        At(s, t, Scanning(shas[1..])).(missed := s.missed + NamingIn(content, s.manifests, shas[0], d))
      else s
    case _ => s
  }

  /** Swallowed failures of the reads that decide on linking are unread ones; a PutBlob that
      cannot look at its own blob only uploads it again. */
  ghost predicate SwallowStep(content: Sha -> seq<File>, unread: bool, s: State, s': State) {
    exists t :: t in s.threads && !s.threads[t].failed && (unread || s.threads[t].pc.Begin?) && s' == Swallowed(content, s, t)
  }

  /** late: calls may also fail after publishing; unread: reads that decide on linking may fail
      and be swallowed. */
  datatype Faults = Faults(late: bool, unread: bool)

  ghost predicate Next(content: Sha -> seq<File>, f: Faults, s: State, s': State) {
    || StartStep(s, s') || WorkStep(content, s, s') || ListStep(s, s') || FailStep(f.late, s, s')
    || SwallowStep(content, f.unread, s, s')
  }

  ghost predicate Run(content: Sha -> seq<File>, f: Faults, trace: seq<State>) {
    && trace != [] && trace[0] == EMPTY
    && forall i :: 0 <= i < |trace| - 1 ==> Next(content, f, trace[i], trace[i + 1])
  }

  // ---------------------------------------------------------------- who still owes a link

  /** The call will still look at entry i of a stored manifest after its blob has landed. */
  predicate Responsible(th: Thread, sha: Sha, i: nat, d: Digest) {
    match th.pc
    case Stat(j) => th.call == PutManifestCall(sha) && j <= i
    case LinkFile(j) => th.call == PutManifestCall(sha) && j <= i
    case Renamed => th.call == PutBlobCall(d)
    case Scanning(shas) => th.call == PutBlobCall(d) && sha in shas
    case Linking(m, rest, k) => th.call == PutBlobCall(d) && ((m == sha && k <= i) || sha in rest)
    case _ => false
  }

  /** Entry i of a stored manifest whose blob d is stored. */
  predicate Due(content: Sha -> seq<File>, s: State, sha: Sha, i: nat, d: Digest) {
    sha in s.manifests && i < |content(sha)| && content(sha)[i].digest == Some(d) && d in s.blobs
  }

  /** Where entry i of a manifest is linked. */
  function Key(content: Sha -> seq<File>, sha: Sha, i: nat): (Sha, Path) {
    (sha, if i < |content(sha)| then content(sha)[i].path else "")
  }

  ghost predicate Owed(s: State, sha: Sha, i: nat, d: Digest) {
    exists t :: t in s.threads && Responsible(s.threads[t], sha, i, d)
  }

  ghost predicate Covered(content: Sha -> seq<File>, s: State) {
    forall sha, i: nat, d :: Due(content, s, sha, i, d) ==>
      Key(content, sha, i) in s.links || (sha, i) in s.missed || Owed(s, sha, i, d)
  }

  /** Links lead from entries of stored manifests to their stored blobs. */
  ghost predicate LinksSound(content: Sha -> seq<File>, s: State) {
    forall e :: e in s.links ==>
      exists i: nat :: i < |content(e.0)| && content(e.0)[i].path == e.1 && Due(content, s, e.0, i, s.links[e])
  }

  /** A file about to be linked has its blob, and a manifest being linked is stored. */
  predicate PcOk(content: Sha -> seq<File>, s: State, th: Thread) {
    match th.pc
    case Stat(_) => th.call.PutManifestCall? && th.call.sha in s.manifests
    case LinkFile(i) =>
      th.call.PutManifestCall? && th.call.sha in s.manifests && i < |content(th.call.sha)| && Held(content(th.call.sha)[i], s.blobs)
    case Uploaded => th.call.PutBlobCall?
    case Renamed => th.call.PutBlobCall? && th.call.digest in s.blobs
    case Scanning(_) => th.call.PutBlobCall? && th.call.digest in s.blobs
    case Linking(sha, _, _) => th.call.PutBlobCall? && th.call.digest in s.blobs && sha in s.manifests
    case _ => true
  }

  ghost predicate Inv(content: Sha -> seq<File>, s: State) {
    && Covered(content, s)
    && LinksSound(content, s)
    && (forall t :: t in s.threads ==> PcOk(content, s, s.threads[t]))
  }

  // ---------------------------------------------------------------- steps keep the invariant

  /** One thread moves on: links and stored files only grow, and whatever becomes due or
      stops being owed by this thread is linked, missed or owed by someone. */
  lemma MoveKeepsCovered(content: Sha -> seq<File>, s: State, s': State, t: nat)
    requires Covered(content, s) && t in s'.threads
    requires s.links.Keys <= s'.links.Keys && s.missed <= s'.missed
    requires forall u :: u in s.threads && u != t ==> u in s'.threads && s'.threads[u] == s.threads[u]
    requires forall sha, i: nat, d :: Due(content, s', sha, i, d) ==>
               (Due(content, s, sha, i, d) && (t in s.threads ==> !Responsible(s.threads[t], sha, i, d))) ||
               Key(content, sha, i) in s'.links || (sha, i) in s'.missed || Responsible(s'.threads[t], sha, i, d)
    ensures Covered(content, s')
  {
    hide Due, Responsible;
    forall sha, i: nat, d | Due(content, s', sha, i, d) && Key(content, sha, i) !in s'.links && (sha, i) !in s'.missed
      ensures Owed(s', sha, i, d)
    {
      if !Responsible(s'.threads[t], sha, i, d) {
        assert Owed(s, sha, i, d);
        var u :| u in s.threads && Responsible(s.threads[u], sha, i, d);
        assert u in s'.threads && Responsible(s'.threads[u], sha, i, d);
      }
    }
  }

  lemma ManifestStepKeepsCovered(content: Sha -> seq<File>, s: State, t: nat)
    requires Inv(content, s) && t in s.threads && s.threads[t].call.PutManifestCall?
    ensures Covered(content, Advance(content, s, t))
  {
    MoveKeepsCovered(content, s, Advance(content, s, t), t) by {
      hide Covered, LinksSound;
    }
  }

  lemma BlobStepKeepsCovered(content: Sha -> seq<File>, s: State, t: nat)
    requires Inv(content, s) && t in s.threads && s.threads[t].call.PutBlobCall?
    ensures Covered(content, Advance(content, s, t))
  {
    if s.threads[t].pc.Linking? {
      LinkingKeepsCovered(content, s, t);
    } else {
      MoveKeepsCovered(content, s, Advance(content, s, t), t) by {
        hide Covered, LinksSound, AdvanceManifest, Held;
      }
    }
  }

  lemma LinkingKeepsCovered(content: Sha -> seq<File>, s: State, t: nat)
    requires Inv(content, s) && t in s.threads && s.threads[t].call.PutBlobCall? && s.threads[t].pc.Linking?
    ensures Covered(content, Advance(content, s, t))
  {
    MoveKeepsCovered(content, s, Advance(content, s, t), t) by {
      hide Covered, LinksSound, AdvanceManifest, Held;
    }
  }

  lemma ListStepKeepsCovered(content: Sha -> seq<File>, s: State, t: nat, shas: seq<Sha>)
    requires Inv(content, s) && t in s.threads && s.threads[t].pc.Renamed? && Lists(shas, s.manifests)
    ensures Covered(content, At(s, t, Scanning(shas)))
  {
    MoveKeepsCovered(content, s, At(s, t, Scanning(shas)), t) by {
      hide Covered, LinksSound;
    }
  }

  lemma StartStepKeepsCovered(content: Sha -> seq<File>, s: State, t: nat, call: Call)
    requires Inv(content, s) && t !in s.threads
    ensures Covered(content, Started(s, t, call))
  {
    MoveKeepsCovered(content, s, Started(s, t, call), t) by {
      hide Covered, LinksSound;
    }
  }

  /** Failing calls keep owing what they owed. */
  lemma FailStepKeepsCovered(content: Sha -> seq<File>, s: State, t: nat)
    requires Inv(content, s) && t in s.threads
    ensures Covered(content, FailedAt(s, t))
  {
    MoveKeepsCovered(content, s, FailedAt(s, t), t) by {
      hide Covered, LinksSound;
    }
  }

  /** What a failed read keeps from being linked is missed from then on. */
  lemma SwallowKeepsCovered(content: Sha -> seq<File>, s: State, t: nat)
    requires Inv(content, s) && t in s.threads
    ensures Covered(content, Swallowed(content, s, t))
  {
    MoveKeepsCovered(content, s, Swallowed(content, s, t), t) by {
      hide Covered, LinksSound;
    }
  }

  /** Stored things only grow, and links change by at most one sound link. */
  lemma MoveKeepsLinksSound(content: Sha -> seq<File>, s: State, s': State)
    requires LinksSound(content, s) && s.manifests <= s'.manifests && s.blobs <= s'.blobs
    requires forall e :: e in s'.links && (e !in s.links || s'.links[e] != s.links[e]) ==>
               exists i: nat :: i < |content(e.0)| && content(e.0)[i].path == e.1 && Due(content, s', e.0, i, s'.links[e])
    ensures LinksSound(content, s')
  {
    forall e | e in s'.links
      ensures exists i: nat :: i < |content(e.0)| && content(e.0)[i].path == e.1 && Due(content, s', e.0, i, s'.links[e])
    {
      if e in s.links && s'.links[e] == s.links[e] {
        var i: nat :| i < |content(e.0)| && content(e.0)[i].path == e.1 && Due(content, s, e.0, i, s.links[e]);
        assert Due(content, s', e.0, i, s'.links[e]);
      }
    }
  }

  /** One new link, for an entry that is due. */
  lemma LinkKeepsLinksSound(content: Sha -> seq<File>, s: State, sha: Sha, i: nat)
    requires LinksSound(content, s) && i < |content(sha)| && content(sha)[i].digest.Some?
    requires Due(content, s, sha, i, content(sha)[i].digest.value)
    ensures LinksSound(content, Link(s, sha, content(sha)[i]))
  {
    var s' := Link(s, sha, content(sha)[i]);
    assert Due(content, s', sha, i, content(sha)[i].digest.value);
    MoveKeepsLinksSound(content, s, s') by {
      hide LinksSound;
    }
  }

  lemma SameStoreSound(content: Sha -> seq<File>, s: State, s': State)
    requires LinksSound(content, s) && s.manifests <= s'.manifests && s.blobs <= s'.blobs && s'.links == s.links
    ensures LinksSound(content, s')
  {
    hide LinksSound, Due;
    MoveKeepsLinksSound(content, s, s');
  }

  lemma AdvanceKeepsLinksSound(content: Sha -> seq<File>, s: State, t: nat)
    requires LinksSound(content, s) && t in s.threads && PcOk(content, s, s.threads[t])
    ensures LinksSound(content, Advance(content, s, t))
  {
    hide LinksSound;
    var th, s' := s.threads[t], Advance(content, s, t);
    if s'.links == s.links {
      SameStoreSound(content, s, s');
    } else if th.call.PutManifestCall? {
      LinkKeepsLinksSound(content, s, th.call.sha, th.pc.i);
      SameStoreSound(content, Link(s, th.call.sha, content(th.call.sha)[th.pc.i]), s');
    } else {
      LinkKeepsLinksSound(content, s, th.pc.sha, th.pc.k);
      SameStoreSound(content, Link(s, th.pc.sha, content(th.pc.sha)[th.pc.k]), s');
    }
  }

  lemma AdvanceKeepsPcOk(content: Sha -> seq<File>, s: State, t: nat, u: nat)
    requires t in s.threads && u in s.threads && PcOk(content, s, s.threads[t]) && PcOk(content, s, s.threads[u])
    ensures u in Advance(content, s, t).threads && PcOk(content, Advance(content, s, t), Advance(content, s, t).threads[u])
  {
    if u == t {
      if s.threads[t].call.PutManifestCall? {
        hide AdvanceBlob;
      } else {
        hide AdvanceManifest;
      }
    } else {
      AdvanceGrowsStore(content, s, t);
      hide Advance;
    }
  }

  lemma AdvanceGrowsStore(content: Sha -> seq<File>, s: State, t: nat)
    requires t in s.threads
    ensures var s' := Advance(content, s, t);
            s.manifests <= s'.manifests && s.blobs <= s'.blobs && s'.threads.Keys == s.threads.Keys &&
            forall u :: u in s.threads && u != t ==> s'.threads[u] == s.threads[u]
  {
  }

  lemma WorkStepKeepsInv(content: Sha -> seq<File>, s: State, t: nat)
    requires Inv(content, s) && t in s.threads
    ensures Inv(content, Advance(content, s, t))
  {
    hide Covered, LinksSound, PcOk, Advance;
    AdvanceKeepsLinksSound(content, s, t);
    if s.threads[t].call.PutManifestCall? {
      ManifestStepKeepsCovered(content, s, t);
    } else {
      BlobStepKeepsCovered(content, s, t);
    }
    forall u | u in Advance(content, s, t).threads
      ensures PcOk(content, Advance(content, s, t), Advance(content, s, t).threads[u])
    {
      AdvanceKeepsThreads(content, s, t);
      AdvanceKeepsPcOk(content, s, t, u);
    }
  }

  lemma AdvanceKeepsThreads(content: Sha -> seq<File>, s: State, t: nat)
    requires t in s.threads
    ensures Advance(content, s, t).threads.Keys == s.threads.Keys
  {
  }

  lemma OtherStepKeepsInv(content: Sha -> seq<File>, f: Faults, s: State, s': State)
    requires Inv(content, s) && (StartStep(s, s') || ListStep(s, s') || FailStep(f.late, s, s'))
    ensures Inv(content, s')
  {
    hide Covered, LinksSound;
    SameStoreSound(content, s, s');
    if StartStep(s, s') {
      var t: nat, call :| t !in s.threads && s' == Started(s, t, call);
      StartStepKeepsCovered(content, s, t, call);
    } else if ListStep(s, s') {
      var t, shas :| t in s.threads && !s.threads[t].failed && s.threads[t].pc.Renamed? && Lists(shas, s.manifests) &&
                     s' == At(s, t, Scanning(shas));
      ListStepKeepsCovered(content, s, t, shas);
    } else {
      var t :| t in s.threads && MayFail(f.late, s.threads[t].pc) && s' == FailedAt(s, t);
      FailStepKeepsCovered(content, s, t);
    }
  }

  lemma SwallowStepKeepsInv(content: Sha -> seq<File>, s: State, t: nat)
    requires Inv(content, s) && t in s.threads
    ensures Inv(content, Swallowed(content, s, t))
  {
    SwallowKeepsCovered(content, s, t);
    hide Covered, LinksSound;
    SameStoreSound(content, s, Swallowed(content, s, t));
  }

  /** Whatever fails: at every step each due entry is linked, missed by a failed read or owed by
      some call, and links are sound. */
  lemma {:induction false} RunKeepsInv(content: Sha -> seq<File>, f: Faults, trace: seq<State>, i: nat)
    requires Run(content, f, trace) && i < |trace|
    ensures Inv(content, trace[i])
  {
    hide Inv, StartStep, ListStep, FailStep, SwallowStep;
    if i == 0 {
      EmptyInv(content);
    } else {
      RunKeepsInv(content, f, trace, i - 1);
      assert Next(content, f, trace[i - 1], trace[i]);
      if WorkStep(content, trace[i - 1], trace[i]) {
        var t :| t in trace[i - 1].threads && !trace[i - 1].threads[t].failed && trace[i] == Advance(content, trace[i - 1], t);
        WorkStepKeepsInv(content, trace[i - 1], t);
      } else if SwallowStep(content, f.unread, trace[i - 1], trace[i]) {
        SwallowingStep(content, f.unread, trace[i - 1], trace[i]);
      } else {
        OtherStepKeepsInv(content, f, trace[i - 1], trace[i]);
      }
    }
  }

  lemma SwallowingStep(content: Sha -> seq<File>, unread: bool, s: State, s': State)
    requires Inv(content, s) && SwallowStep(content, unread, s, s')
    ensures Inv(content, s')
  {
    hide Inv, Swallowed;
    var t :| t in s.threads && s' == Swallowed(content, s, t);
    SwallowStepKeepsInv(content, s, t);
  }

  lemma EmptyInv(content: Sha -> seq<File>)
    ensures Inv(content, EMPTY)
  {
  }

  // ---------------------------------------------------------------- main results

  /** The call is over: it returned, or it failed before it published anything. */
  predicate Settled(th: Thread) {
    th.pc.Returned? || (th.failed && (th.pc.Begin? || th.pc.Uploaded?))
  }

  /** Once every call is over, every stored manifest entry whose blob is stored is linked unless a
      failed read missed it, and to that very blob when the manifest names each path once. */
  lemma QuietMeansLinked(content: Sha -> seq<File>, f: Faults, trace: seq<State>, sha: Sha, i: nat, d: Digest)
    requires Run(content, f, trace)
    requires var s := trace[|trace| - 1];
             (forall t :: t in s.threads ==> Settled(s.threads[t])) && Due(content, s, sha, i, d) && (sha, i) !in s.missed
    ensures var s := trace[|trace| - 1];
            var p := content(sha)[i].path;
            (sha, p) in s.links &&
            (exists j :: 0 <= j < |content(sha)| && content(sha)[j] == File(p, Some(s.links[(sha, p)]))) &&
            s.links[(sha, p)] in s.blobs &&
            ((forall j :: 0 <= j < |content(sha)| && content(sha)[j].path == p ==> j == i) ==> s.links[(sha, p)] == d)
  {
    var s := trace[|trace| - 1];
    RunKeepsInv(content, f, trace, |trace| - 1);
    hide Run;
    var e := Key(content, sha, i);
    assert e in s.links;
    var j: nat :| j < |content(e.0)| && content(e.0)[j].path == e.1 && Due(content, s, e.0, j, s.links[e]);
    assert content(sha)[j] == File(content(sha)[i].path, Some(s.links[e]));
  }

  /** Nothing is missed where no failed read is swallowed. */
  lemma {:induction false} NothingMissed(content: Sha -> seq<File>, f: Faults, trace: seq<State>, i: nat)
    requires Run(content, f, trace) && i < |trace| && !f.unread
    ensures trace[i].missed == {}
  {
    if i > 0 {
      NothingMissed(content, f, trace, i - 1);
      NextMissesNothing(content, f, trace[i - 1], trace[i]);
    }
  }

  lemma NextMissesNothing(content: Sha -> seq<File>, f: Faults, s: State, s': State)
    requires Next(content, f, s, s') && !f.unread
    ensures s'.missed == s.missed
  {
  }

  /** No link dangles at any step, whatever fails: it leads from an entry of a stored manifest to
      a stored blob. */
  lemma LinksNeverDangle(content: Sha -> seq<File>, f: Faults, trace: seq<State>, n: nat, e: (Sha, Path))
    requires Run(content, f, trace) && n < |trace| && e in trace[n].links
    ensures e.0 in trace[n].manifests && trace[n].links[e] in trace[n].blobs &&
            File(e.1, Some(trace[n].links[e])) in content(e.0)
  {
    RunKeepsInv(content, f, trace, n);
    hide Run;
    var s := trace[n];
    var i: nat :| i < |content(e.0)| && content(e.0)[i].path == e.1 && Due(content, s, e.0, i, s.links[e]);
    assert content(e.0)[i] == File(e.1, Some(s.links[e]));
  }

  // ---------------------------------------------------------------- the steps are the calls

  /** A call's next n file operations, undisturbed. */
  ghost function Solo(content: Sha -> seq<File>, s: State, t: nat, n: nat): (s': State)
    requires t in s.threads
    ensures t in s'.threads
    decreases n
  {
    if n == 0 then s
    else
      AdvanceKeepsThreads(content, s, t);
      Solo(content, Advance(content, s, t), t, n - 1)
  }

  lemma {:induction false} SoloAdds(content: Sha -> seq<File>, s: State, t: nat, n: nat, m: nat)
    requires t in s.threads
    ensures Solo(content, s, t, n + m) == Solo(content, Solo(content, s, t, n), t, m)
    decreases n
  {
    hide Advance;
    if n > 0 {
      AdvanceKeepsThreads(content, s, t);
      SoloAdds(content, Advance(content, s, t), t, n - 1, m);
    }
  }

  lemma SoloOne(content: Sha -> seq<File>, s: State, t: nat)
    requires t in s.threads
    ensures Solo(content, s, t, 1) == Advance(content, s, t)
  {
    hide Advance;
    AdvanceKeepsThreads(content, s, t);
    assert Solo(content, Advance(content, s, t), t, 0) == Advance(content, s, t);
  }

  function Linked(s: State, links: Links): State { s.(links := links) }

  /** The linking loop of PutManifest, from file i on. */
  lemma {:induction false} SoloFiles(content: Sha -> seq<File>, s: State, t: nat, sha: Sha, i: nat, links0: Links)
    returns (n: nat)
    requires t in s.threads && s.threads[t] == Thread(PutManifestCall(sha), Stat(i), false) && i <= |content(sha)|
    requires s.links == LinkHeld(links0, sha, content(sha)[..i], s.blobs, {})
    ensures Solo(content, s, t, n) == At(Linked(s, LinkHeld(links0, sha, content(sha), s.blobs, {})), t, Returned)
    decreases |content(sha)| - i
  {
    var files := content(sha);
    var s1 := Advance(content, s, t);
    hide Solo, AdvanceBlob, LinkHeld;
    SoloOne(content, s, t);
    if i == |files| {
      assert files[..i] == files;
      n := 1;
    } else {
      LinkHeldNext(links0, sha, files, i, s.blobs);
      if Held(files[i], s.blobs) {
        var s2 := Advance(content, s1, t);
        SoloOne(content, s1, t);
        SoloAdds(content, s, t, 1, 1);
        var m := SoloFiles(content, s2, t, sha, i + 1, links0);
        SoloAdds(content, s, t, 2, m);
        n := 2 + m;
        FileLinked(s, s2, t, links0, sha, files, i);
      } else {
        var m := SoloFiles(content, s1, t, sha, i + 1, links0);
        SoloAdds(content, s, t, 1, m);
        n := 1 + m;
        FileSkipped(s, s1, t, links0, sha, files);
      }
    }
  }

  lemma LinkHeldNext(links: Links, sha: Sha, files: seq<File>, i: nat, blobs: set<Digest>)
    requires i < |files|
    ensures LinkHeld(links, sha, files[..i + 1], blobs, {}) ==
            if Held(files[i], blobs) then LinkHeld(links, sha, files[..i], blobs, {})[(sha, files[i].path) := files[i].digest.value]
            else LinkHeld(links, sha, files[..i], blobs, {})
  {
    assert files[..i + 1][..i] == files[..i];
  }

  lemma FileLinked(s: State, s2: State, t: nat, links0: Links, sha: Sha, files: seq<File>, i: nat)
    requires t in s.threads && i < |files| && files[i].digest.Some?
    requires s2 == At(Link(At(s, t, LinkFile(i)), sha, files[i]), t, Stat(i + 1))
    ensures At(Linked(s2, LinkHeld(links0, sha, files, s.blobs, {})), t, Returned) ==
            At(Linked(s, LinkHeld(links0, sha, files, s.blobs, {})), t, Returned)
  {
    hide LinkHeld;
  }

  lemma FileSkipped(s: State, s1: State, t: nat, links0: Links, sha: Sha, files: seq<File>)
    requires t in s.threads && exists pc :: s1 == At(s, t, pc)
    ensures At(Linked(s1, LinkHeld(links0, sha, files, s.blobs, {})), t, Returned) ==
            At(Linked(s, LinkHeld(links0, sha, files, s.blobs, {})), t, Returned)
  {
    hide LinkHeld;
  }

  /** Undisturbed, the steps of a PutManifest store the manifest and make the links of
      FsBackend.PutManifest. */
  lemma SoloPutManifest(content: Sha -> seq<File>, s: State, t: nat, sha: Sha) returns (n: nat)
    requires t in s.threads && s.threads[t] == Thread(PutManifestCall(sha), Begin, false)
    ensures Solo(content, s, t, n) ==
            At(Linked(s.(manifests := s.manifests + {sha}), LinkHeld(s.links, sha, content(sha), s.blobs, {})), t, Returned)
  {
    var s1 := At(s, t, Stat(0)).(manifests := s.manifests + {sha});
    assert s1 == Advance(content, s, t);
    SoloOne(content, s, t);
    assert content(sha)[..0] == [];
    hide Solo, Advance;
    var m := SoloFiles(content, s1, t, sha, 0, s.links);
    SoloAdds(content, s, t, 1, m);
    n := 1 + m;
    hide LinkHeld;
    assert At(Linked(s1, LinkHeld(s.links, sha, content(sha), s.blobs, {})), t, Returned) ==
           At(Linked(s.(manifests := s.manifests + {sha}), LinkHeld(s.links, sha, content(sha), s.blobs, {})), t, Returned);
  }

  /** The linking loop of PutBlob in one manifest, from file k on. */
  lemma {:induction false} SoloManifest(content: Sha -> seq<File>, s: State, t: nat, d: Digest, sha: Sha, rest: seq<Sha>, k: nat,
                                        links0: Links) returns (n: nat)
    requires t in s.threads && s.threads[t] == Thread(PutBlobCall(d), Linking(sha, rest, k), false) && k <= |content(sha)|
    requires s.links == LinkAll(links0, EntriesOf(map[sha := content(sha)[..k]], d), d)
    ensures Solo(content, s, t, n) ==
            At(Linked(s, LinkAll(links0, EntriesOf(map[sha := content(sha)], d), d)), t, Scanning(rest))
    decreases |content(sha)| - k
  {
    var files := content(sha);
    var s1 := Advance(content, s, t);
    hide Solo, AdvanceManifest, EntriesOf, LinkAll;
    SoloOne(content, s, t);
    if k == |files| {
      assert files[..k] == files;
      n := 1;
    } else {
      var moved := if files[k].digest == Some(d) then Link(s, sha, files[k]) else s;
      assert s1 == At(moved, t, Linking(sha, rest, k + 1));
      hide Advance;
      EntriesGrow(sha, files, k, d);
      if files[k].digest == Some(d) {
        LinkOneMore(links0, EntriesOf(map[sha := files[..k]], d), (sha, files[k].path), d);
      }
      var m := SoloManifest(content, s1, t, d, sha, rest, k + 1, links0);
      SoloAdds(content, s, t, 1, m);
      n := 1 + m;
      assert At(Linked(s1, LinkAll(links0, EntriesOf(map[sha := files], d), d)), t, Scanning(rest)) ==
             At(Linked(s, LinkAll(links0, EntriesOf(map[sha := files], d), d)), t, Scanning(rest));
    }
  }

  /** The listed manifests that are stored. */
  function StoredOf(content: Sha -> seq<File>, manifests: set<Sha>, shas: seq<Sha>): map<Sha, seq<File>> {
    map sha | sha in shas && sha in manifests :: content(sha)
  }

  lemma StoredCons(content: Sha -> seq<File>, manifests: set<Sha>, shas: seq<Sha>, d: Digest)
    requires shas != []
    ensures EntriesOf(StoredOf(content, manifests, shas), d) ==
            (if shas[0] in manifests then EntriesOf(map[shas[0] := content(shas[0])], d) else {}) +
            EntriesOf(StoredOf(content, manifests, shas[1..]), d)
  {
    var all, rest, one := StoredOf(content, manifests, shas), StoredOf(content, manifests, shas[1..]),
                          map[shas[0] := content(shas[0])];
    assert shas == [shas[0]] + shas[1..];
    forall e | e in EntriesOf(all, d)
      ensures e in EntriesOf(rest, d) || (shas[0] in manifests && e in EntriesOf(one, d))
    {
      var sha, i :| sha in all && 0 <= i < |all[sha]| && all[sha][i].digest == Some(d) && e == (sha, all[sha][i].path);
      if sha == shas[0] { assert one[sha][i] == all[sha][i]; } else { assert rest[sha][i] == all[sha][i]; }
    }
    forall e | e in EntriesOf(rest, d) ensures e in EntriesOf(all, d) {
      var sha, i :| sha in rest && 0 <= i < |rest[sha]| && rest[sha][i].digest == Some(d) && e == (sha, rest[sha][i].path);
      assert all[sha][i] == rest[sha][i];
    }
    if shas[0] in manifests {
      forall e | e in EntriesOf(one, d) ensures e in EntriesOf(all, d) {
        var i :| 0 <= i < |one[shas[0]]| && one[shas[0]][i].digest == Some(d) && e == (shas[0], one[shas[0]][i].path);
        assert all[shas[0]][i] == one[shas[0]][i];
      }
    }
  }

  /** The entries of one listed manifest that name d. */
  function ListedEntries(content: Sha -> seq<File>, manifests: set<Sha>, sha: Sha, d: Digest): set<(Sha, Path)> {
    if sha in manifests then EntriesOf(map[sha := content(sha)], d) else {}
  }

  /** One listed manifest: read and linked, or skipped because it is not there yet. */
  lemma SoloListed(content: Sha -> seq<File>, s: State, t: nat, d: Digest, shas: seq<Sha>) returns (n: nat)
    requires t in s.threads && s.threads[t] == Thread(PutBlobCall(d), Scanning(shas), false) && shas != []
    ensures Solo(content, s, t, n) ==
            At(Linked(s, LinkAll(s.links, ListedEntries(content, s.manifests, shas[0], d), d)), t, Scanning(shas[1..]))
  {
    var s1 := Advance(content, s, t);
    SoloOne(content, s, t);
    LinkNone(s.links, d);
    hide Solo, AdvanceManifest, EntriesOf, LinkAll;
    if shas[0] in s.manifests {
      NoEntriesIn(shas[0], d);
      assert content(shas[0])[..0] == [];
      assert s1 == At(s, t, Linking(shas[0], shas[1..], 0));
      var m := SoloManifest(content, s1, t, d, shas[0], shas[1..], 0, s.links);
      SoloAdds(content, s, t, 1, m);
      n := 1 + m;
      hide Advance;
      SameMiddle(s, s1, t, LinkAll(s.links, EntriesOf(map[shas[0] := content(shas[0])], d), d), Scanning(shas[1..]));
    } else {
      n := 1;
    }
  }

  lemma SameMiddle(s: State, s': State, t: nat, links: Links, pc: Pc)
    requires t in s.threads && exists pc' :: s' == At(s, t, pc')
    ensures At(Linked(s', links), t, pc) == At(Linked(s, links), t, pc)
  {
  }

  /** Undisturbed, a PutBlob that has listed the manifests makes the links of FsBackend.PutBlob. */
  lemma {:induction false} SoloScan(content: Sha -> seq<File>, s: State, t: nat, d: Digest, shas: seq<Sha>)
    returns (n: nat)
    requires t in s.threads && s.threads[t] == Thread(PutBlobCall(d), Scanning(shas), false)
    ensures Solo(content, s, t, n) ==
            At(Linked(s, LinkAll(s.links, EntriesOf(StoredOf(content, s.manifests, shas), d), d)), t, Returned)
    decreases |shas|
  {
    hide Solo, AdvanceManifest, EntriesOf, LinkAll, ListedEntries;
    if shas == [] {
      assert StoredOf(content, s.manifests, shas) == map[];
      NoEntries(d);
      LinkNone(s.links, d);
      SoloOne(content, s, t);
      n := 1;
    } else {
      hide Advance;
      var first, rest := ListedEntries(content, s.manifests, shas[0], d), EntriesOf(StoredOf(content, s.manifests, shas[1..]), d);
      StoredFirst(content, s.manifests, shas, d);
      hide StoredOf;
      var m := SoloListed(content, s, t, d, shas);
      var s1 := At(Linked(s, LinkAll(s.links, first, d)), t, Scanning(shas[1..]));
      var m' := SoloScan(content, s1, t, d, shas[1..]);
      SoloAdds(content, s, t, m, m');
      LinkBoth(s.links, first, rest, d);
      n := m + m';
      SameEnd(s, s1, t, LinkAll(s.links, first + rest, d));
    }
  }

  lemma StoredFirst(content: Sha -> seq<File>, manifests: set<Sha>, shas: seq<Sha>, d: Digest)
    requires shas != []
    ensures EntriesOf(StoredOf(content, manifests, shas), d) ==
            ListedEntries(content, manifests, shas[0], d) + EntriesOf(StoredOf(content, manifests, shas[1..]), d)
  {
    StoredCons(content, manifests, shas, d);
    hide EntriesOf, StoredOf;
  }

  /** Undisturbed, the steps of a PutBlob end as FsBackend.PutBlob does: at once when the blob is
      there, otherwise with the blob stored and, after any listing of the manifests, linked. */
  lemma SoloPutBlob(content: Sha -> seq<File>, s: State, t: nat, d: Digest, shas: seq<Sha>) returns (n: nat)
    requires t in s.threads && s.threads[t] == Thread(PutBlobCall(d), Begin, false) && Lists(shas, s.manifests)
    ensures d in s.blobs ==> Solo(content, s, t, 1) == At(s, t, Returned)
    ensures d !in s.blobs ==>
              var stored := s.(blobs := s.blobs + {d});
              Solo(content, s, t, 2) == At(stored, t, Renamed) &&
              Solo(content, At(stored, t, Scanning(shas)), t, n) ==
              At(Linked(stored, LinkAll(s.links, EntriesOf(map sha | sha in s.manifests :: content(sha), d), d)), t, Returned)
  {
    SoloOne(content, s, t);
    n := 0;
    if d !in s.blobs {
      var s1 := Advance(content, s, t);
      SoloOne(content, s1, t);
      SoloAdds(content, s, t, 1, 1);
      hide Solo, LinkAll, EntriesOf;
      var stored := s.(blobs := s.blobs + {d});
      var s2 := At(stored, t, Scanning(shas));
      assert Advance(content, s1, t) == At(stored, t, Renamed);
      hide Advance;
      n := SoloScan(content, s2, t, d, shas);
      assert StoredOf(content, s.manifests, shas) == map sha | sha in s.manifests :: content(sha);
      SameEnd(stored, s2, t, LinkAll(s.links, EntriesOf(map sha | sha in s.manifests :: content(sha), d), d));
    }
  }

  lemma SameEnd(s: State, s': State, t: nat, links: Links)
    requires t in s.threads && s' == s.(links := s'.links, threads := s'.threads)
    requires t in s'.threads && s'.threads == s.threads[t := s'.threads[t]] && s'.threads[t].call == s.threads[t].call &&
             s'.threads[t].failed == s.threads[t].failed
    ensures At(Linked(s', links), t, Returned) == At(Linked(s, links), t, Returned)
  {
  }

  // ---------------------------------------------------------------- what a failure costs

  lemma RunGrows(content: Sha -> seq<File>, f: Faults, trace: seq<State>, s: State) returns (trace': seq<State>)
    requires Run(content, f, trace) && Next(content, f, trace[|trace| - 1], s)
    ensures Run(content, f, trace') && trace' != [] && trace'[|trace'| - 1] == s
  {
    hide Next;
    trace' := trace + [s];
  }

  lemma CallStarts(content: Sha -> seq<File>, f: Faults, trace: seq<State>, t: nat, call: Call)
    returns (trace': seq<State>)
    requires Run(content, f, trace) && t !in trace[|trace| - 1].threads
    ensures Run(content, f, trace') && trace' != [] && trace'[|trace'| - 1] == Started(trace[|trace| - 1], t, call)
  {
    assert StartStep(trace[|trace| - 1], Started(trace[|trace| - 1], t, call));
    trace' := RunGrows(content, f, trace, Started(trace[|trace| - 1], t, call));
  }

  lemma CallMoves(content: Sha -> seq<File>, f: Faults, trace: seq<State>, t: nat, s: State) returns (trace': seq<State>)
    requires Run(content, f, trace) && t in trace[|trace| - 1].threads && !trace[|trace| - 1].threads[t].failed
    requires s == Advance(content, trace[|trace| - 1], t)
    ensures Run(content, f, trace') && trace' != [] && trace'[|trace'| - 1] == s
  {
    assert WorkStep(content, trace[|trace| - 1], s);
    hide Advance;
    trace' := RunGrows(content, f, trace, s);
  }

  lemma CallFails(content: Sha -> seq<File>, f: Faults, trace: seq<State>, t: nat) returns (trace': seq<State>)
    requires Run(content, f, trace) && t in trace[|trace| - 1].threads && MayFail(f.late, trace[|trace| - 1].threads[t].pc)
    ensures Run(content, f, trace') && trace' != [] && trace'[|trace'| - 1] == FailedAt(trace[|trace| - 1], t)
  {
    assert FailStep(f.late, trace[|trace| - 1], FailedAt(trace[|trace| - 1], t));
    trace' := RunGrows(content, f, trace, FailedAt(trace[|trace| - 1], t));
  }

  lemma CallSwallows(content: Sha -> seq<File>, f: Faults, trace: seq<State>, t: nat, s: State)
    returns (trace': seq<State>)
    requires Run(content, f, trace) && t in trace[|trace| - 1].threads && !trace[|trace| - 1].threads[t].failed && f.unread
    requires s == Swallowed(content, trace[|trace| - 1], t)
    ensures Run(content, f, trace') && trace' != [] && trace'[|trace'| - 1] == s
  {
    assert SwallowStep(content, f.unread, trace[|trace| - 1], s);
    trace' := RunGrows(content, f, trace, s);
  }

  lemma CallLists(content: Sha -> seq<File>, f: Faults, trace: seq<State>, t: nat, shas: seq<Sha>)
    returns (trace': seq<State>)
    requires Run(content, f, trace)
    requires var s := trace[|trace| - 1];
             t in s.threads && !s.threads[t].failed && s.threads[t].pc.Renamed? && Lists(shas, s.manifests)
    ensures Run(content, f, trace') && trace' != [] && trace'[|trace'| - 1] == At(trace[|trace| - 1], t, Scanning(shas))
  {
    assert ListStep(trace[|trace| - 1], At(trace[|trace| - 1], t, Scanning(shas)));
    trace' := RunGrows(content, f, trace, At(trace[|trace| - 1], t, Scanning(shas)));
  }

  /** The state in which one PutManifest has come to pc and nothing else has happened. */
  function ManifestAt(sha: Sha, pc: Pc): State {
    State({sha}, {}, map[], map[0 := Thread(PutManifestCall(sha), pc, false)], {})
  }

  lemma {:induction false} ManifestFiles(content: Sha -> seq<File>, f: Faults, trace: seq<State>, sha: Sha, i: nat)
    returns (trace': seq<State>)
    requires Run(content, f, trace) && i <= |content(sha)| && trace[|trace| - 1] == ManifestAt(sha, Stat(i))
    ensures Run(content, f, trace') && trace' != [] && trace'[|trace'| - 1] == ManifestAt(sha, Returned)
    decreases |content(sha)| - i
  {
    hide Run;
    if i == |content(sha)| {
      trace' := CallMoves(content, f, trace, 0, ManifestAt(sha, Returned));
    } else {
      trace' := CallMoves(content, f, trace, 0, ManifestAt(sha, Stat(i + 1)));
      trace' := ManifestFiles(content, f, trace', sha, i + 1);
    }
  }

  /** A first PutManifest, alone: with no blob there it links nothing. */
  lemma ManifestFirst(content: Sha -> seq<File>, f: Faults, sha: Sha) returns (trace: seq<State>)
    ensures Run(content, f, trace) && trace != [] && trace[|trace| - 1] == ManifestAt(sha, Returned)
  {
    trace := [EMPTY];
    trace := CallStarts(content, f, trace, 0, PutManifestCall(sha));
    trace := CallMoves(content, f, trace, 0, ManifestAt(sha, Stat(0)));
    trace := ManifestFiles(content, f, trace, sha, 0);
  }

  /** A PutBlob of a missing blob, up to its rename. */
  lemma BlobLands(content: Sha -> seq<File>, f: Faults, trace: seq<State>, t: nat, d: Digest) returns (trace': seq<State>)
    requires Run(content, f, trace) && t !in trace[|trace| - 1].threads && d !in trace[|trace| - 1].blobs
    ensures Run(content, f, trace') && trace' != []
    ensures var s := trace[|trace| - 1];
            trace'[|trace'| - 1] == s.(blobs := s.blobs + {d}, threads := s.threads[t := Thread(PutBlobCall(d), Renamed, false)])
  {
    var s, call := trace[|trace| - 1], PutBlobCall(d);
    hide Run, AdvanceManifest;
    trace' := CallStarts(content, f, trace, t, call);
    trace' := CallMoves(content, f, trace', t, s.(threads := s.threads[t := Thread(call, Uploaded, false)]));
    trace' := CallMoves(content, f, trace', t, s.(blobs := s.blobs + {d}, threads := s.threads[t := Thread(call, Renamed, false)]));
  }

  /** What a PutManifest, a PutBlob of a blob it names and the repeated PutBlob leave when the
      first PutBlob does not link. */
  predicate LeftUnlinked(content: Sha -> seq<File>, s: State, sha: Sha, i: nat, d: Digest, first: Thread) {
    s.threads == map[0 := Thread(PutManifestCall(sha), Returned, false), 1 := first,
                     2 := Thread(PutBlobCall(d), Returned, false)] &&
    Due(content, s, sha, i, d) && Key(content, sha, i) !in s.links
  }

  lemma Retried(content: Sha -> seq<File>, f: Faults, trace: seq<State>, sha: Sha, i: nat, d: Digest, first: Thread)
    returns (trace': seq<State>)
    requires Run(content, f, trace) && i < |content(sha)| && content(sha)[i].digest == Some(d)
    requires var s := trace[|trace| - 1];
             s.manifests == {sha} && s.blobs == {d} && s.links == map[] &&
             s.threads == map[0 := Thread(PutManifestCall(sha), Returned, false), 1 := first]
    ensures Run(content, f, trace') && trace' != [] && LeftUnlinked(content, trace'[|trace'| - 1], sha, i, d, first)
  {
    var s, call := trace[|trace| - 1], PutBlobCall(d);
    hide Run, AdvanceManifest;
    trace' := CallStarts(content, f, trace, 2, call);
    trace' := CallMoves(content, f, trace', 2, s.(threads := s.threads[2 := Thread(call, Returned, false)]));
  }

  /** What a late failure costs: a PutBlob that fails between its rename and its linking leaves
      the entry unlinked, and repeating the PutBlob returns at its first look. */
  lemma RetriedBlobStaysUnlinked(content: Sha -> seq<File>, f: Faults, sha: Sha, i: nat, d: Digest)
    returns (trace: seq<State>)
    requires f.late && i < |content(sha)| && content(sha)[i].digest == Some(d)
    ensures Run(content, f, trace) && trace != []
    ensures LeftUnlinked(content, trace[|trace| - 1], sha, i, d, Thread(PutBlobCall(d), Renamed, true))
  {
    hide Run;
    trace := ManifestFirst(content, f, sha);
    trace := BlobLands(content, f, trace, 1, d);
    trace := CallFails(content, f, trace, 1);
    trace := Retried(content, f, trace, sha, i, d, Thread(PutBlobCall(d), Renamed, true));
  }

  /** What a swallowed read costs: a PutBlob that cannot read the manifest answers yes without
      linking its entry, and repeating the PutBlob returns at its first look. No call fails. */
  lemma UnreadManifestStaysUnlinked(content: Sha -> seq<File>, f: Faults, sha: Sha, i: nat, d: Digest)
    returns (trace: seq<State>)
    requires f.unread && i < |content(sha)| && content(sha)[i].digest == Some(d)
    ensures Run(content, f, trace) && trace != []
    ensures LeftUnlinked(content, trace[|trace| - 1], sha, i, d, Thread(PutBlobCall(d), Returned, false))
  {
    hide Run, AdvanceManifest, Naming;
    trace := ManifestFirst(content, f, sha);
    trace := BlobLands(content, f, trace, 1, d);
    trace := CallLists(content, f, trace, 1, [sha]);
    var s := trace[|trace| - 1];
    var s' := At(s, 1, Scanning([])).(missed := Naming(content(sha), sha, d));
    assert [sha][1..] == [];
    assert s.missed + Naming(content(sha), sha, d) == s'.missed;
    trace := CallSwallows(content, f, trace, 1, s');
    trace := CallMoves(content, f, trace, 1, At(s', 1, Returned));
    trace := Retried(content, f, trace, sha, i, d, Thread(PutBlobCall(d), Returned, false));
  }

  /** The same on the other side: a PutManifest that cannot look at a blob that is there answers
      yes without linking its file. */
  lemma UnseenBlobStaysUnlinked(content: Sha -> seq<File>, f: Faults, sha: Sha, p: Path, d: Digest)
    returns (trace: seq<State>)
    requires f.unread && content(sha) == [File(p, Some(d))]
    ensures Run(content, f, trace) && trace != []
    ensures var s := trace[|trace| - 1];
            s.threads == map[0 := Thread(PutBlobCall(d), Returned, false), 1 := Thread(PutManifestCall(sha), Returned, false)] &&
            Due(content, s, sha, 0, d) && (sha, p) !in s.links
  {
    hide Run;
    trace := [EMPTY];
    assert Run(content, f, trace) by { EmptyRun(content, f); }
    trace := BlobLands(content, f, trace, 0, d);
    trace := CallLists(content, f, trace, 0, []);
    var blob, call := Thread(PutBlobCall(d), Returned, false), PutManifestCall(sha);
    trace := CallMoves(content, f, trace, 0, State({}, {d}, map[], map[0 := blob], {}));
    trace := CallStarts(content, f, trace, 1, call);
    trace := CallMoves(content, f, trace, 1, State({sha}, {d}, map[], map[0 := blob, 1 := Thread(call, Stat(0), false)], {}));
    trace := CallSwallows(content, f, trace, 1,
                          State({sha}, {d}, map[], map[0 := blob, 1 := Thread(call, Stat(1), false)], {(sha, 0)}));
    trace := CallMoves(content, f, trace, 1,
                       State({sha}, {d}, map[], map[0 := blob, 1 := Thread(call, Returned, false)], {(sha, 0)}));
  }

  lemma EmptyRun(content: Sha -> seq<File>, f: Faults)
    ensures Run(content, f, [EMPTY])
  {
  }

  // ---------------------------------------------------------------- linking, exactly

  /** Every call has returned, well or with an error. */
  predicate AllOver(s: State) {
    forall t :: t in s.threads ==> s.threads[t].pc.Returned? || s.threads[t].failed
  }

  ghost predicate FullyLinked(content: Sha -> seq<File>, s: State) {
    forall sha, i: nat, d :: Due(content, s, sha, i, d) ==> Key(content, sha, i) in s.links
  }

  /** A call that failed early failed before it published. */
  ghost predicate FailedEarly(s: State) {
    forall t :: t in s.threads && s.threads[t].failed ==> MayFail(false, s.threads[t].pc)
  }

  lemma NextFailsEarly(content: Sha -> seq<File>, f: Faults, s: State, s': State)
    requires FailedEarly(s) && Next(content, f, s, s') && !f.late
    ensures FailedEarly(s')
  {
    if WorkStep(content, s, s') {
      var t :| t in s.threads && !s.threads[t].failed && s' == Advance(content, s, t);
      AdvanceGrowsStore(content, s, t);
      AdvanceKeepsCall(content, s, t);
      hide Advance;
    }
  }

  lemma AdvanceKeepsCall(content: Sha -> seq<File>, s: State, t: nat)
    requires t in s.threads
    ensures t in Advance(content, s, t).threads && Advance(content, s, t).threads[t].failed == s.threads[t].failed &&
            Advance(content, s, t).threads[t].call == s.threads[t].call
  {
  }

  lemma {:induction false} RunFailsEarly(content: Sha -> seq<File>, f: Faults, trace: seq<State>, i: nat)
    requires Run(content, f, trace) && i < |trace| && !f.late
    ensures FailedEarly(trace[i])
  {
    hide Next;
    if i > 0 {
      hide FailedEarly;
      RunFailsEarly(content, f, trace, i - 1);
      NextFailsEarly(content, f, trace[i - 1], trace[i]);
    }
  }

  /** With one manifest content per commit, some file of which has a digest: every state in which
      all calls are over is fully linked if and only if no call may fail after publishing and no
      failed read that decides on linking is swallowed. */
  lemma FullyLinkedExactlyWhen(content: Sha -> seq<File>, f: Faults, sha: Sha, i: nat, d: Digest)
    requires i < |content(sha)| && content(sha)[i].digest == Some(d)
    ensures (forall trace: seq<State>, n ::
               Run(content, f, trace) && 0 <= n < |trace| && AllOver(trace[n]) ==> FullyLinked(content, trace[n])) <==>
            !f.late && !f.unread
  {
    hide Run;
    if f.late || f.unread {
      var trace;
      if f.late {
        trace := RetriedBlobStaysUnlinked(content, f, sha, i, d);
      } else {
        trace := UnreadManifestStaysUnlinked(content, f, sha, i, d);
      }
      assert AllOver(trace[|trace| - 1]) && !FullyLinked(content, trace[|trace| - 1]);
    } else {
      forall trace: seq<State>, n | Run(content, f, trace) && 0 <= n < |trace| && AllOver(trace[n])
        ensures FullyLinked(content, trace[n])
      {
        RunKeepsInv(content, f, trace, n);
        RunFailsEarly(content, f, trace, n);
        NothingMissed(content, f, trace, n);
        NobodyOwes(content, trace[n]);
      }
    }
  }

  lemma NobodyOwes(content: Sha -> seq<File>, s: State)
    requires Inv(content, s) && FailedEarly(s) && AllOver(s) && s.missed == {}
    ensures FullyLinked(content, s)
  {
    forall sha, i: nat, d | Due(content, s, sha, i, d) ensures Key(content, sha, i) in s.links {
      assert !Owed(s, sha, i, d);
    }
  }
}
