/** Commits on a branch: the tree a commit builds, convergence of retries, and writers
    serialised by the repo lock (internal/relay/write.go). */
module RelayCommit {
  import opened Common
  import opened StringOrder

  type Path = string

  /** The identity of a tree entry: what sameTree compares and what the commit id covers. */
  datatype FileEntry = FileEntry(path: Path, size: int, digest: Digest)

  type Tree = seq<FileEntry>

  /** A minted commit id is a digest of parent, tree and summary; a mirrored repo's commits
      carry ids from elsewhere. */
  datatype CommitId = Minted(parent: Option<CommitId>, tree: Tree, summary: string) | Foreign(name: string)

  datatype CommitOps = CommitOps(
    summary: string,
    parentCommit: Option<CommitId>,
    files: seq<(Path, Bytes)>,
    lfsFiles: seq<FileEntry>,
    deletedFiles: seq<Path>,
    deletedFolders: seq<Path>)

  datatype CommitError = BadRevision | RevisionNotFound | ParentMismatch | LFSBlobMissing(paths: seq<Path>)

  // ---------------------------------------------------------------- trees and listings

  predicate Keyed(m: map<Path, FileEntry>) {
    forall p :: p in m ==> m[p].path == p
  }

  predicate StrictlySorted(t: Tree) {
    forall i, j :: 0 <= i < j < |t| ==> Less(t[i].path, t[j].path)
  }

  /** The map of a file list; a repeated path keeps its last entry. */
  function MapOf(t: Tree): (m: map<Path, FileEntry>)
    ensures Keyed(m)
  {
    if t == [] then map[]
    else
      var last := t[|t| - 1];
      MapOf(t[..|t| - 1])[last.path := last]
  }

  /** The entries of a tree in path order. */
  ghost function Listing(m: map<Path, FileEntry>): Tree
    decreases |m.Keys|
  {
    if m.Keys == {} then []
    else
      var p := Least(m.Keys);
      assert (m - {p}).Keys == m.Keys - {p};
      [m[p]] + Listing(m - {p})
  }

  lemma SortedCons(e: FileEntry, t: Tree)
    requires StrictlySorted(t) && forall i :: 0 <= i < |t| ==> Less(e.path, t[i].path)
    ensures StrictlySorted([e] + t)
  {
    hide Less;
  }

  lemma EmptySorted()
    ensures StrictlySorted([])
  {
  }

  /** A listing is sorted and lists exactly the map's entries. */
  lemma {:induction false} ListingEntries(m: map<Path, FileEntry>)
    requires Keyed(m)
    ensures StrictlySorted(Listing(m))
    ensures forall e :: e in Listing(m) <==> e.path in m && m[e.path] == e
    decreases |m.Keys|
  {
    hide Less, StrictlySorted;
    if m.Keys != {} {
      var p := Least(m.Keys);
      var rest := m - {p};
      assert rest.Keys == m.Keys - {p};
      ListingEntries(rest);
      var t := Listing(rest);
      forall i | 0 <= i < |t| ensures Less(p, t[i].path) {
        assert t[i] in t;
      }
      SortedCons(m[p], t);
      assert Listing(m) == [m[p]] + t;
    } else {
      EmptySorted();
    }
  }

  lemma {:induction false} ListingRestores(m: map<Path, FileEntry>)
    requires Keyed(m)
    ensures MapOf(Listing(m)) == m
  {
    hide Less, StrictlySorted, Listing;
    ListingEntries(m);
    var t := Listing(m);
    forall p | p in MapOf(t) ensures p in m && MapOf(t)[p] == m[p] {
      MapOfEntry(t, p);
    }
    forall p | p in m ensures p in MapOf(t) {
      assert m[p] in t;
      EntryInMap(t, m[p]);
    }
  }

  /** Every entry of the map of a list is in the list. */
  lemma {:induction false} MapOfEntry(t: Tree, p: Path)
    requires p in MapOf(t)
    ensures MapOf(t)[p] in t
  {
    var last := t[|t| - 1];
    if last.path != p {
      MapOfEntry(t[..|t| - 1], p);
    }
  }

  lemma {:induction false} EntryInMap(t: Tree, e: FileEntry)
    requires e in t
    ensures e.path in MapOf(t)
  {
    if t[|t| - 1] != e {
      assert t == t[..|t| - 1] + [t[|t| - 1]];
      EntryInMap(t[..|t| - 1], e);
    }
  }

  /** Entries in sorted order, least path first (sort.Slice on the map's values). */
  method SortedEntries(m: map<Path, FileEntry>) returns (sorted: Tree)
    requires Keyed(m)
    ensures sorted == Listing(m)
  {
    sorted := [];
    var rest := m;
    while rest.Keys != {}
      invariant Keyed(rest)
      invariant Listing(m) == sorted + Listing(rest)
      decreases |rest.Keys|
    {
      LeastExists(rest.Keys);
      var p :| p in rest.Keys && forall q :: q in rest.Keys && q != p ==> Less(p, q);
      LeastUnique(p, Least(rest.Keys), rest.Keys);
      assert (rest - {p}).Keys == rest.Keys - {p};
      sorted := sorted + [rest[p]];
      rest := rest - {p};
    }
  }

  /** sameTree: equal lists of (path, digest, size), position by position. */
  method SameTree(a: Tree, b: Tree) returns (same: bool)
    ensures same == (a == b)
  {
    if |a| != |b| {
      return false;
    }
    for i := 0 to |a|
      invariant a[..i] == b[..i]
    {
      if a[i].path != b[i].path || a[i].digest != b[i].digest || a[i].size != b[i].size {
        return false;
      }
      assert a[..i + 1] == a[..i] + [a[i]] && b[..i + 1] == b[..i] + [b[i]];
    }
    assert a[..|a|] == a && b[..|b|] == b;
    return true;
  }

  // ---------------------------------------------------------------- what a commit does to a tree

  /** The folder's name without one trailing slash, and then exactly one. */
  function FolderPrefix(dir: Path): Path {
    (if dir != [] && dir[|dir| - 1] == '/' then dir[..|dir| - 1] else dir) + "/"
  }

  predicate Deleted(ops: CommitOps, p: Path) {
    p in ops.deletedFiles || exists i :: 0 <= i < |ops.deletedFolders| && FolderPrefix(ops.deletedFolders[i]) <= p
  }

  /** A path goes if it is named, or if it lies under a named folder. */
  lemma DeletedMeans(ops: CommitOps, p: Path)
    ensures Deleted(ops, p) <==>
            p in ops.deletedFiles || exists i :: 0 <= i < |ops.deletedFolders| && Under(ops.deletedFolders[i], p)
  {
    forall i | 0 <= i < |ops.deletedFolders|
      ensures FolderPrefix(ops.deletedFolders[i]) <= p <==> Under(ops.deletedFolders[i], p)
    {
      PrefixIsUnder(ops.deletedFolders[i], p);
    }
    hide FolderPrefix, Under;
  }

  /** The path is the folder's name, a slash and more; the name may come with its slash. */
  predicate Under(dir: Path, p: Path) {
    dir + "/" <= p || (dir != "" && dir[|dir| - 1] == '/' && dir <= p)
  }

  lemma PrefixIsUnder(dir: Path, p: Path)
    ensures FolderPrefix(dir) <= p <==> Under(dir, p)
  {
    if dir != "" && dir[|dir| - 1] == '/' {
      assert FolderPrefix(dir) == dir;
      if dir + "/" <= p {
        assert p[..|dir|] == (dir + "/")[..|dir|] == dir;
      }
    }
  }

  function InlineEntry(f: (Path, Bytes)): FileEntry {
    FileEntry(f.0, |f.1|, Sha256(f.1))
  }

  function InlineEntries(files: seq<(Path, Bytes)>): (r: Tree)
    ensures |r| == |files| && forall i :: 0 <= i < |files| ==> r[i] == InlineEntry(files[i])
  {
    seq(|files|, i requires 0 <= i < |files| => InlineEntry(files[i]))
  }

  /** The new tree: the parent minus deleted paths, overlaid by inline and then LFS files. */
  function NewTree(parent: Tree, ops: CommitOps): (m: map<Path, FileEntry>)
    ensures Keyed(m)
  {
    var kept := MapOf(parent);
    (map p | p in kept && !Deleted(ops, p) :: kept[p]) + MapOf(InlineEntries(ops.files)) + MapOf(ops.lfsFiles)
  }

  /** Applying the same operations to their own result changes nothing. */
  lemma NewTreeIdempotent(parent: Tree, ops: CommitOps)
    ensures NewTree(Listing(NewTree(parent, ops)), ops) == NewTree(parent, ops)
  {
    hide MapOf, Listing, Deleted, InlineEntries;
    var once := NewTree(parent, ops);
    ListingRestores(once);
    var twice := NewTree(Listing(once), ops);
    assert twice.Keys == once.Keys;
  }

  lemma {:induction false} MapOfAppend(t: Tree, e: FileEntry)
    ensures MapOf(t + [e]) == MapOf(t)[e.path := e]
  {
    assert (t + [e])[..|t|] == t;
  }

  lemma OverlayStep(kept: map<Path, FileEntry>, t: Tree, e: FileEntry)
    ensures kept + MapOf(t + [e]) == (kept + MapOf(t))[e.path := e]
  {
    MapOfAppend(t, e);
    hide MapOf;
  }

  lemma TakeStep<T>(s: seq<T>, i: nat)
    requires i < |s|
    ensures s[..i + 1] == s[..i] + [s[i]]
  {
  }

  lemma InlineStep(files: seq<(Path, Bytes)>, i: nat)
    requires i < |files|
    ensures InlineEntries(files[..i + 1]) == InlineEntries(files[..i]) + [InlineEntry(files[i])]
  {
    hide InlineEntries, InlineEntry;
  }

  /** The map-building loops of Commit. */
  method BuildTree(parent: Tree, ops: CommitOps, blobs: set<Digest>)
    returns (files: map<Path, FileEntry>, blobs': set<Digest>, missing: seq<Path>)
    ensures blobs' == blobs + InlineDigests(ops)
    ensures missing == MissingLFS(ops.lfsFiles, blobs')
    ensures missing == [] ==> files == NewTree(parent, ops)
  {
    hide Listing, Deleted, InlineEntry, MapOf, InlineEntries, MissingLFS;
    files := map[];
    EmptyMapOf();
    for i := 0 to |parent|
      invariant files == MapOf(parent[..i])
    {
      TakeStep(parent, i);
      MapOfAppend(parent[..i], parent[i]);
      files := files[parent[i].path := parent[i]];
    }
    assert parent[..|parent|] == parent;
    files := DeletePaths(files, ops);
    ghost var kept := files;
    blobs' := blobs;
    for i := 0 to |ops.files|
      invariant files == kept + MapOf(InlineEntries(ops.files[..i]))
      invariant blobs' == blobs + set k | 0 <= k < i :: Sha256(ops.files[k].1)
    {
      var f := ops.files[i];
      InlineStep(ops.files, i);
      OverlayStep(kept, InlineEntries(ops.files[..i]), InlineEntry(f));
      InlineEntryPath(f);
      blobs' := blobs' + {Sha256(f.1)};
      files := files[f.0 := InlineEntry(f)];
    }
    assert ops.files[..|ops.files|] == ops.files;
    ghost var inlined := files;
    missing := [];
    NoneMissing(blobs');
    for i := 0 to |ops.lfsFiles|
      invariant missing == MissingLFS(ops.lfsFiles[..i], blobs')
      invariant missing == [] ==> files == inlined + MapOf(ops.lfsFiles[..i])
    {
      var f := ops.lfsFiles[i];
      TakeStep(ops.lfsFiles, i);
      MissingLFSStep(ops.lfsFiles, i, blobs');
      OverlayStep(inlined, ops.lfsFiles[..i], f);
      if f.digest !in blobs' {
        missing := missing + [f.path];
      } else {
        files := files[f.path := f];
      }
    }
    assert ops.lfsFiles[..|ops.lfsFiles|] == ops.lfsFiles;
  }

  lemma NoneMissing(blobs: set<Digest>)
    ensures MissingLFS([], blobs) == []
  {
  }

  lemma MissingLFSStep(lfs: Tree, i: nat, blobs: set<Digest>)
    requires i < |lfs|
    ensures MissingLFS(lfs[..i + 1], blobs) == MissingLFS(lfs[..i], blobs) + if lfs[i].digest in blobs then [] else [lfs[i].path]
  {
    assert lfs[..i + 1][..i] == lfs[..i];
  }

  lemma EmptyMapOf()
    ensures MapOf([]) == map[] && InlineEntries([]) == []
  {
  }

  lemma InlineEntryPath(f: (Path, Bytes))
    ensures InlineEntry(f).path == f.0
  {
  }

  function InlineDigests(ops: CommitOps): set<Digest> {
    set k | 0 <= k < |ops.files| :: Sha256(ops.files[k].1)
  }

  /** No later entry of the list has this one's path. */
  predicate LastEntry(t: Tree, i: nat) {
    i < |t| && forall j :: i < j < |t| ==> t[j].path != t[i].path
  }

  predicate LastFile(files: seq<(Path, Bytes)>, k: nat) {
    k < |files| && forall j :: k < j < |files| ==> files[j].0 != files[k].0
  }

  predicate HasPath(t: Tree, p: Path) { exists i :: 0 <= i < |t| && t[i].path == p }

  predicate HasFile(files: seq<(Path, Bytes)>, p: Path) { exists k :: 0 <= k < |files| && files[k].0 == p }

  /** The map of a list has the list's paths, each with its last entry. */
  lemma {:induction false} MapOfMeans(t: Tree, p: Path)
    ensures p in MapOf(t) <==> HasPath(t, p)
    ensures p in MapOf(t) ==> exists i: nat :: LastEntry(t, i) && t[i].path == p && MapOf(t)[p] == t[i]
    ensures forall i: nat :: LastEntry(t, i) && t[i].path == p ==> p in MapOf(t) && MapOf(t)[p] == t[i]
  {
    if t != [] {
      var n := |t| - 1;
      var init := t[..n];
      MapOfMeans(init, p);
      if t[n].path == p {
        assert LastEntry(t, n);
      } else {
        LastOfInit(t, init, p);
        hide LastEntry, HasPath;
        if p in MapOf(init) {
          var i: nat :| LastEntry(init, i) && init[i].path == p && MapOf(init)[p] == init[i];
          assert LastEntry(t, i) && t[i] == init[i];
        }
      }
    }
  }

  lemma LastOfInit(t: Tree, init: Tree, p: Path)
    requires t != [] && t[|t| - 1].path != p && init == t[..|t| - 1]
    ensures HasPath(init, p) <==> HasPath(t, p)
    ensures forall i: nat :: LastEntry(t, i) && t[i].path == p <==> LastEntry(init, i) && init[i].path == p
    ensures forall i: nat :: LastEntry(init, i) ==> i < |init|
  {
    var n := |init|;
    if HasPath(init, p) {
      var i :| 0 <= i < n && init[i].path == p;
      assert t[i].path == p;
    }
    if HasPath(t, p) {
      var i :| 0 <= i < |t| && t[i].path == p;
      assert init[i].path == p;
    }
    forall i: nat ensures LastEntry(t, i) && t[i].path == p <==> LastEntry(init, i) && init[i].path == p {
      if i < n { assert forall j :: i < j < n ==> init[j] == t[j]; }
    }
  }

  lemma InlineMeans(files: seq<(Path, Bytes)>, p: Path)
    ensures HasPath(InlineEntries(files), p) <==> HasFile(files, p)
    ensures forall k: nat :: LastEntry(InlineEntries(files), k) <==> LastFile(files, k)
    ensures forall k: nat :: k < |files| ==> InlineEntries(files)[k] == FileEntry(files[k].0, |files[k].1|, Sha256(files[k].1))
  {
    var t := InlineEntries(files);
    if HasFile(files, p) {
      var k :| 0 <= k < |files| && files[k].0 == p;
      assert t[k].path == p;
    }
    forall k: nat ensures LastEntry(t, k) <==> LastFile(files, k) {
      if k < |files| {
        assert forall j :: k < j < |files| ==> (t[j].path == files[j].0) && t[k].path == files[k].0;
      }
    }
  }

  /** The paths reported are those of the LFS files without a blob; none is left out. */
  lemma {:induction false} MissingLFSMeans(lfs: Tree, blobs: set<Digest>)
    ensures forall p :: p in MissingLFS(lfs, blobs) <==> exists i :: 0 <= i < |lfs| && lfs[i].path == p && lfs[i].digest !in blobs
    ensures MissingLFS(lfs, blobs) == [] <==> forall i :: 0 <= i < |lfs| ==> lfs[i].digest in blobs
  {
    if lfs != [] {
      var n := |lfs| - 1;
      MissingLFSMeans(lfs[..n], blobs);
      assert forall i :: 0 <= i < n ==> lfs[..n][i] == lfs[i];
      if lfs[n].digest !in blobs { assert lfs[n].path in MissingLFS(lfs, blobs); }
    }
  }

  /** They are reported in the order of the files. */
  lemma {:induction false} MissingLFSSplits(a: Tree, b: Tree, blobs: set<Digest>)
    ensures MissingLFS(a + b, blobs) == MissingLFS(a, blobs) + MissingLFS(b, blobs)
  {
    if b == [] {
      assert a + b == a;
    } else {
      var n := |b| - 1;
      assert (a + b)[..|a| + n] == a + b[..n];
      MissingLFSSplits(a, b[..n], blobs);
    }
  }

  /** The LFS files whose blob has not been uploaded. */
  function MissingLFS(lfs: Tree, blobs: set<Digest>): seq<Path> {
    if lfs == [] then []
    else
      MissingLFS(lfs[..|lfs| - 1], blobs) + if lfs[|lfs| - 1].digest in blobs then [] else [lfs[|lfs| - 1].path]
  }

  method DeletePaths(m: map<Path, FileEntry>, ops: CommitOps) returns (files: map<Path, FileEntry>)
    ensures files == map p | p in m && !Deleted(ops, p) :: m[p]
  {
    hide FolderPrefix;
    files := m;
    for i := 0 to |ops.deletedFiles|
      invariant files == map p | p in m && p !in ops.deletedFiles[..i] :: m[p]
    {
      TakeStep(ops.deletedFiles, i);
      files := files - {ops.deletedFiles[i]};
    }
    assert ops.deletedFiles[..|ops.deletedFiles|] == ops.deletedFiles;
    for i := 0 to |ops.deletedFolders|
      invariant files == map p | p in m && p !in ops.deletedFiles && !UnderFirst(ops, i, p) :: m[p]
    {
      files := DeleteFolder(files, FolderPrefix(ops.deletedFolders[i]));
    }
  }

  method DeleteFolder(m: map<Path, FileEntry>, prefix: Path) returns (files: map<Path, FileEntry>)
    ensures files == map p | p in m && !(prefix <= p) :: m[p]
  {
    files := m;
    var todo := m.Keys;
    while todo != {}
      invariant todo <= m.Keys
      invariant files == map p | p in m && (p in todo || !(prefix <= p)) :: m[p]
      decreases |todo|
    {
      var path :| path in todo;
      if prefix <= path {
        files := files - {path};
      }
      todo := todo - {path};
    }
  }

  predicate UnderFirst(ops: CommitOps, n: nat, p: Path)
    requires n <= |ops.deletedFolders|
  {
    exists i :: 0 <= i < n && FolderPrefix(ops.deletedFolders[i]) <= p
  }

  // ---------------------------------------------------------------- one commit under the lock

  /** The repo as Commit sees it. fanout is the replication queue's view of new heads. */
  datatype Repo = Repo(refs: map<string, CommitId>, manifests: map<CommitId, Tree>, blobs: set<Digest>,
                       fanout: seq<(string, CommitId)>)

  /** Refs lead to stored manifests, and a minted id names exactly the tree stored under it. */
  ghost predicate WellFormed(r: Repo) {
    && (forall b :: b in r.refs ==> r.refs[b] in r.manifests)
    && (forall c :: c in r.manifests && c.Minted? ==> r.manifests[c] == c.tree)
  }

  /** The commit id these operations mint on a parent. */
  ghost function Mint(r: Repo, parent: CommitId, ops: CommitOps): CommitId
    requires parent in r.manifests
  {
    Minted(Some(parent), Listing(NewTree(r.manifests[parent], ops)), ops.summary)
  }

  /** What Commit answers and leaves behind. */
  ghost function CommitOutcome(r: Repo, revision: string, ops: CommitOps): (Repo, Result<CommitId, CommitError>) {
    if IsCommitSHA(revision) then (r, Err(BadRevision))
    else if revision !in r.refs then (r, Err(RevisionNotFound))
    else
      var parent := r.refs[revision];
      if ops.parentCommit.Some? && ops.parentCommit.value != parent then (r, Err(ParentMismatch))
      else if parent !in r.manifests then (r, Err(RevisionNotFound))
      else
        var r' := r.(blobs := r.blobs + InlineDigests(ops));
        if MissingLFS(ops.lfsFiles, r'.blobs) != [] then (r', Err(LFSBlobMissing(MissingLFS(ops.lfsFiles, r'.blobs))))
        else if r.manifests[parent] == Listing(NewTree(r.manifests[parent], ops)) then (r', Ok(parent))
        else
          var c := Mint(r, parent, ops);
          (r'.(manifests := r'.manifests[c := c.tree], refs := r'.refs[revision := c], fanout := r'.fanout + [(revision, c)]), Ok(c))
  }

  class Relay {
    var repo: Repo

    constructor (repo: Repo)
      ensures this.repo == repo
    {
      this.repo := repo;
    }

    /** Called with the repo lock held. */
    method Commit(revision: string, ops: CommitOps) returns (r: Result<CommitId, CommitError>)
      modifies this
      ensures (repo, r) == CommitOutcome(old(repo), revision, ops)
    {
      if IsCommitSHA(revision) {
        return Err(BadRevision);
      }
      if revision !in repo.refs {
        return Err(RevisionNotFound);
      }
      var parentSHA := repo.refs[revision];
      if ops.parentCommit.Some? && ops.parentCommit.value != parentSHA {
        return Err(ParentMismatch);
      }
      if parentSHA !in repo.manifests {
        return Err(RevisionNotFound);
      }
      var parent := repo.manifests[parentSHA];
      var files, blobs, missing := BuildTree(parent, ops, repo.blobs);
      repo := repo.(blobs := blobs);
      if |missing| > 0 {
        return Err(LFSBlobMissing(missing));
      }
      var sorted := SortedEntries(files);
      var same := SameTree(parent, sorted);
      if same {
        return Ok(parentSHA);
      }
      var c := Minted(Some(parentSHA), sorted, ops.summary);
      repo := repo.(manifests := repo.manifests[c := sorted]);
      repo := repo.(refs := repo.refs[revision := c]);
      repo := repo.(fanout := repo.fanout + [(revision, c)]);
      return Ok(c);
    }
  }

  /** A successful commit yields a strictly sorted tree that is exactly the parent minus
      deleted files and folders, overlaid by inline and then LFS files. */
  lemma CommitTree(r: Repo, revision: string, ops: CommitOps)
    requires WellFormed(r) && CommitOutcome(r, revision, ops).1.Ok?
    ensures var (r', answer) := CommitOutcome(r, revision, ops);
            var parent := MapOf(r.manifests[r.refs[revision]]);
            WellFormed(r') && r'.refs[revision] == answer.value && answer.value in r'.manifests &&
            var tree := r'.manifests[answer.value];
            StrictlySorted(tree) &&
            forall p ::
              var inLFS, inFiles := p in MapOf(ops.lfsFiles), p in MapOf(InlineEntries(ops.files));
              (p in MapOf(tree) <==> inLFS || inFiles || (p in parent && !Deleted(ops, p))) &&
              (p in MapOf(tree) ==>
                 MapOf(tree)[p] == if inLFS then MapOf(ops.lfsFiles)[p]
                                   else if inFiles then MapOf(InlineEntries(ops.files))[p] else parent[p])
  {
    hide Less, StrictlySorted;
    var m := NewTree(r.manifests[r.refs[revision]], ops);
    ListingEntries(m);
    ListingRestores(m);
  }

  /** The committed tree, entry by entry: the last LFS file of a path; else the last inline content
      of a path under its own length and sha256; else the parent's entry, if nothing deletes it.
      Every entry that is not the parent's has its content in the repo. */
  lemma CommittedContent(r: Repo, revision: string, ops: CommitOps)
    requires WellFormed(r) && CommitOutcome(r, revision, ops).1.Ok?
    ensures var (r', answer) := CommitOutcome(r, revision, ops);
            var parent := r.manifests[r.refs[revision]];
            answer.value in r'.manifests &&
            var tree := r'.manifests[answer.value];
            (forall i: nat :: LastEntry(ops.lfsFiles, i) ==> ops.lfsFiles[i] in tree) &&
            (forall k: nat :: LastFile(ops.files, k) && !HasPath(ops.lfsFiles, ops.files[k].0) ==>
               FileEntry(ops.files[k].0, |ops.files[k].1|, Sha256(ops.files[k].1)) in tree) &&
            (forall i: nat :: LastEntry(parent, i) && !Overridden(ops, parent[i].path) && !Deleted(ops, parent[i].path) ==>
               parent[i] in tree) &&
            (forall e :: e in tree ==>
               (e in parent && !Overridden(ops, e.path) && !Deleted(ops, e.path)) || (Overridden(ops, e.path) && e.digest in r'.blobs))
  {
    var parent := r.manifests[r.refs[revision]];
    var (r', answer) := CommitOutcome(r, revision, ops);
    var m := NewTree(parent, ops);
    var tree := Listing(m);
    ListingEntries(m);
    MissingLFSMeans(ops.lfsFiles, r'.blobs);
    hide Listing, StrictlySorted, Deleted, MissingLFS, Mint, IsCommitSHA;
    assert r'.manifests[answer.value] == tree;
    forall i: nat | LastEntry(ops.lfsFiles, i) ensures ops.lfsFiles[i] in tree {
      NewTreeAt(parent, ops, ops.lfsFiles[i].path);
    }
    forall k: nat | LastFile(ops.files, k) && !HasPath(ops.lfsFiles, ops.files[k].0)
      ensures FileEntry(ops.files[k].0, |ops.files[k].1|, Sha256(ops.files[k].1)) in tree
    {
      NewTreeAt(parent, ops, ops.files[k].0);
    }
    forall i: nat | LastEntry(parent, i) && !Overridden(ops, parent[i].path) && !Deleted(ops, parent[i].path) ensures parent[i] in tree {
      NewTreeAt(parent, ops, parent[i].path);
    }
    forall e | e in tree
      ensures (e in parent && !Overridden(ops, e.path) && !Deleted(ops, e.path)) || (Overridden(ops, e.path) && e.digest in r'.blobs)
    {
      NewTreeAt(parent, ops, e.path);
    }
  }

  predicate Overridden(ops: CommitOps, p: Path) { HasPath(ops.lfsFiles, p) || HasFile(ops.files, p) }

  /** What the new tree holds at one path. */
  lemma NewTreeAt(parent: Tree, ops: CommitOps, p: Path)
    ensures var m := NewTree(parent, ops);
            (p in m <==> Overridden(ops, p) || (HasPath(parent, p) && !Deleted(ops, p))) &&
            (forall i: nat :: LastEntry(ops.lfsFiles, i) && ops.lfsFiles[i].path == p ==> p in m && m[p] == ops.lfsFiles[i]) &&
            (!HasPath(ops.lfsFiles, p) ==>
               forall k: nat :: LastFile(ops.files, k) && ops.files[k].0 == p ==>
                 p in m && m[p] == FileEntry(p, |ops.files[k].1|, Sha256(ops.files[k].1))) &&
            (!Overridden(ops, p) && !Deleted(ops, p) ==>
               forall i: nat :: LastEntry(parent, i) && parent[i].path == p ==> p in m && m[p] == parent[i]) &&
            (p in m && !Overridden(ops, p) ==> m[p] in parent) &&
            (p in m && Overridden(ops, p) ==> m[p] in ops.lfsFiles || m[p].digest in InlineDigests(ops))
  {
    hide MapOf, Deleted, LastEntry, LastFile, HasPath, HasFile, InlineEntries;
    MapOfMeans(parent, p);
    MapOfMeans(ops.lfsFiles, p);
    MapOfMeans(InlineEntries(ops.files), p);
    InlineMeans(ops.files, p);
    if p in NewTree(parent, ops) && !HasPath(ops.lfsFiles, p) && HasFile(ops.files, p) {
      InlineDigestAt(ops, p);
    }
    LastInside(parent);
    LastInside(ops.lfsFiles);
    LastFileInside(ops.files);
  }

  lemma LastFileInside(files: seq<(Path, Bytes)>)
    ensures forall k: nat :: LastFile(files, k) ==> k < |files|
  {
  }

  lemma LastInside(t: Tree)
    ensures forall i: nat :: LastEntry(t, i) ==> i < |t|
  {
  }

  lemma InlineDigestAt(ops: CommitOps, p: Path)
    requires HasFile(ops.files, p)
    ensures p in MapOf(InlineEntries(ops.files)) && MapOf(InlineEntries(ops.files))[p].digest in InlineDigests(ops)
  {
    InlineMeans(ops.files, p);
    MapOfMeans(InlineEntries(ops.files), p);
    hide MapOf;
    var k: nat :| LastEntry(InlineEntries(ops.files), k) && InlineEntries(ops.files)[k].path == p &&
                  MapOf(InlineEntries(ops.files))[p] == InlineEntries(ops.files)[k];
    assert Sha256(ops.files[k].1) in InlineDigests(ops);
  }

  /** Besides the tree: a refused commit moves nothing, a new one moves its branch alone, to an id
      that covers parent, tree and summary, and is queued for fan-out. */
  lemma CommitFrame(r: Repo, revision: string, ops: CommitOps)
    ensures var (r', answer) := CommitOutcome(r, revision, ops);
            r.blobs <= r'.blobs &&
            (answer.Err? ==> r'.refs == r.refs && r'.manifests == r.manifests && r'.fanout == r.fanout) &&
            (answer.Ok? ==>
               revision in r.refs &&
               if answer.value == r.refs[revision] then
                 r'.refs == r.refs && r'.manifests == r.manifests && r'.fanout == r.fanout
               else
                 answer.value in r'.manifests &&
                 answer.value == Minted(Some(r.refs[revision]), r'.manifests[answer.value], ops.summary) &&
                 revision in r'.refs && r'.refs[revision] == answer.value && r'.fanout == r.fanout + [(revision, answer.value)] &&
                 (forall b :: b != revision ==> (b in r'.refs <==> b in r.refs) && (b in r.refs ==> r'.refs[b] == r.refs[b])) &&
                 (forall c :: c != answer.value ==> (c in r'.manifests <==> c in r.manifests) && (c in r.manifests ==> r'.manifests[c] == r.manifests[c])))
  {
    hide Listing, NewTree, MissingLFS, IsCommitSHA;
    if revision in r.refs && r.refs[revision] in r.manifests {
      ChildIsNew(r.refs[revision], Mint(r, r.refs[revision], ops));
    }
  }

  lemma ChildIsNew(parent: CommitId, c: CommitId)
    requires c.Minted? && c.parent == Some(parent)
    ensures c != parent
  {
  }

  /** When each refusal is given, and in which order they are looked for. */
  lemma RefusedExactlyWhen(r: Repo, revision: string, ops: CommitOps)
    requires WellFormed(r)
    ensures var answer := CommitOutcome(r, revision, ops).1;
            var noBranch := revision !in r.refs;
            var wrongParent := !noBranch && ops.parentCommit.Some? && ops.parentCommit.value != r.refs[revision];
            var lacksLFS := exists i :: 0 <= i < |ops.lfsFiles| && ops.lfsFiles[i].digest !in r.blobs &&
                                        !exists k :: 0 <= k < |ops.files| && ops.lfsFiles[i].digest == Sha256(ops.files[k].1);
            (answer == Err(BadRevision) <==> IsCommitSHA(revision)) &&
            (answer == Err(RevisionNotFound) <==> !IsCommitSHA(revision) && noBranch) &&
            (answer == Err(ParentMismatch) <==> !IsCommitSHA(revision) && wrongParent) &&
            (answer.Ok? <==> !IsCommitSHA(revision) && !noBranch && !wrongParent && !lacksLFS)
  {
    hide Listing, NewTree, IsCommitSHA, MissingLFS;
    MissingLFSMeans(ops.lfsFiles, r.blobs + InlineDigests(ops));
    forall d ensures d in InlineDigests(ops) <==> exists k :: 0 <= k < |ops.files| && d == Sha256(ops.files[k].1) {
    }
  }

  /** The operations leave the branch's tree as it is: the guard of Commit's early return. */
  ghost predicate IsNoOp(r: Repo, revision: string, ops: CommitOps)
    requires revision in r.refs && r.refs[revision] in r.manifests
  {
    var tree := r.manifests[r.refs[revision]];
    tree == Listing(NewTree(tree, ops))
  }

  /** Repeating a successful commit returns the same id and changes nothing, exactly when the
      client named no parent or the operations do not change the tree they are applied to:
      otherwise the named parent is no longer the head. */
  lemma RetryConvergesExactlyWhen(r: Repo, revision: string, ops: CommitOps)
    requires WellFormed(r) && CommitOutcome(r, revision, ops).1.Ok?
    ensures var (r', answer) := CommitOutcome(r, revision, ops);
            var converges := ops.parentCommit.None? || IsNoOp(r, revision, ops);
            CommitOutcome(r', revision, ops) == (r', if converges then answer else Err(ParentMismatch)) &&
            (CommitOutcome(r', revision, ops) == (r', answer) <==> converges)
  {
    var parent := r.refs[revision];
    NewTreeIdempotent(r.manifests[parent], ops);
    var (r', answer) := CommitOutcome(r, revision, ops);
    assert r'.blobs + InlineDigests(ops) == r'.blobs;
    hide Listing, NewTree, MissingLFS;
  }
}
