/** The directories of a backup (scripts/cval-backup.py): made top down, stamped by every entry that is created in them,
    and given their recorded mode and time bottom up, after everything else. */
module BackupDirectories {
  import opened BackupRecords

  datatype SourceDirectory = SourceDirectory(path: Path, mode: int, mtime: int)

  datatype Meta = Meta(mode: int, mtime: int)

  type Directories = map<Path, Meta>

  /** Owner only, 0o700: the mode of every directory while the backup is written. */
  const STAGING_MODE := 0x1C0

  function Parent(p: Path): Path
    requires p != []
  {
    p[..|p| - 1]
  }

  function DirectoryPaths(directories: seq<SourceDirectory>): set<Path> {
    set d | d in directories :: d.path
  }

  predicate DistinctDirectories(directories: seq<SourceDirectory>) {
    forall i, j | 0 <= i < j < |directories| :: directories[i].path != directories[j].path
  }

  /** The directories of one inventory: the root, and with every entry the directory that holds it. */
  predicate DirectoriesFit(directories: seq<SourceDirectory>, files: seq<SourceFile>) {
    && DistinctDirectories(directories) && [] in DirectoryPaths(directories)
    && (forall d | d in directories :: d.mtime >= 0 && 0 <= d.mode <= 0xFFF)
    && (forall d | d in directories && d.path != [] :: Parent(d.path) in DirectoryPaths(directories))
    && (forall f | f in files :: f.path != [] && Parent(f.path) in DirectoryPaths(directories) && f.path !in DirectoryPaths(directories))
  }

  /** Creating an entry stamps the directory that holds it. */
  function Stamped(t: Directories, p: Path, now: int): Directories {
    if p in t then t[p := t[p].(mtime := now)] else t
  }

  predicate Searchable(m: Meta) {
    (m.mode / 0x40) % 2 == 1
  }

  /** Every directory above p can be passed. */
  predicate Reachable(t: Directories, p: Path) {
    forall n | 0 <= n < |p| :: p[..n] in t && Searchable(t[p[..n]])
  }

  /** The directories as they are while files are written. */
  predicate Open(t: Directories, directories: seq<SourceDirectory>) {
    t.Keys == DirectoryPaths(directories) && forall p | p in t :: t[p].mode == STAGING_MODE
  }

  /** Shallow directories first. */
  predicate ByDepth(directories: seq<SourceDirectory>) {
    forall i, j | 0 <= i < j < |directories| :: |directories[i].path| <= |directories[j].path|
  }

  /** Sorting by depth; which of two directories of one depth comes first does not matter. */
  method SortByDepth(directories: seq<SourceDirectory>) returns (sorted: seq<SourceDirectory>)
    ensures multiset(sorted) == multiset(directories) && ByDepth(sorted)
  {
    sorted := [];
    hide ByDepth;
    NothingToSort();
    for i := 0 to |directories|
      invariant multiset(sorted) == multiset(directories[..i]) && ByDepth(sorted)
    {
      var d := directories[i];
      var k := PlaceFor(sorted, |d.path|);
      InsertByDepth(sorted, d, k);
      assert directories[..i + 1] == directories[..i] + [d];
      sorted := sorted[..k] + [d] + sorted[k..];
    }
    assert directories[..|directories|] == directories;
  }

  method PlaceFor(sorted: seq<SourceDirectory>, depth: nat) returns (k: nat)
    ensures k <= |sorted| && (forall j | 0 <= j < k :: |sorted[j].path| <= depth) && (k < |sorted| ==> depth < |sorted[k].path|)
  {
    k := 0;
    while k < |sorted| && |sorted[k].path| <= depth
      invariant 0 <= k <= |sorted| && forall j | 0 <= j < k :: |sorted[j].path| <= depth
    {
      k := k + 1;
    }
  }

  lemma NothingToSort()
    ensures ByDepth([])
  {
  }

  lemma InsertByDepth(s: seq<SourceDirectory>, d: SourceDirectory, k: nat)
    requires ByDepth(s) && k <= |s| && (forall j | 0 <= j < k :: |s[j].path| <= |d.path|) && (k < |s| ==> |d.path| < |s[k].path|)
    ensures ByDepth(s[..k] + [d] + s[k..])
    ensures multiset(s[..k] + [d] + s[k..]) == multiset(s) + multiset{d}
  {
    assert s == s[..k] + s[k..];
  }

  /** A permutation of the directories has the same paths, each once. */
  lemma PermutedDirectories(directories: seq<SourceDirectory>, sorted: seq<SourceDirectory>)
    requires multiset(sorted) == multiset(directories) && DistinctDirectories(directories)
    ensures |sorted| == |directories| && DistinctDirectories(sorted) && DirectoryPaths(sorted) == DirectoryPaths(directories)
    ensures forall d :: d in sorted <==> d in directories
  {
    assert |multiset(sorted)| == |multiset(directories)|;
    forall d ensures d in sorted <==> d in directories {
      assert d in multiset(sorted) <==> d in multiset(directories);
    }
    forall i, j | 0 <= i < j < |sorted| ensures sorted[i].path != sorted[j].path {
      if sorted[i].path == sorted[j].path {
        SamePathSameDirectory(directories, sorted[i], sorted[j]);
        TwiceThere(sorted, i, j);
        OnceEach(directories, sorted[i]);
      }
    }
  }

  lemma SamePathSameDirectory(directories: seq<SourceDirectory>, d: SourceDirectory, e: SourceDirectory)
    requires DistinctDirectories(directories) && d in directories && e in directories && d.path == e.path
    ensures d == e
  {
    var i :| 0 <= i < |directories| && directories[i] == d;
    var j :| 0 <= j < |directories| && directories[j] == e;
    assert !(i < j) && !(j < i);
  }

  lemma TwiceThere(s: seq<SourceDirectory>, i: nat, j: nat)
    requires i < j < |s| && s[i] == s[j]
    ensures multiset(s)[s[i]] >= 2
  {
    assert s == s[..i] + [s[i]] + s[i + 1..j] + [s[j]] + s[j + 1..];
  }

  lemma {:induction false} OnceEach(s: seq<SourceDirectory>, d: SourceDirectory)
    requires DistinctDirectories(s)
    ensures multiset(s)[d] <= 1
  {
    if s != [] {
      var front, last := s[..|s| - 1], s[|s| - 1];
      assert s == front + [last];
      OnceEach(front, d);
      if last == d {
        assert d !in front;
      }
    }
  }

  /** The staging root and every directory below it, parents first: no mkdir meets a missing parent or an existing entry. */
  method MakeDirectories(directories: seq<SourceDirectory>, ghost files: seq<SourceFile>) returns (made: Directories)
    requires DirectoriesFit(directories, files)
    ensures Open(made, directories)
  {
    hide DirectoriesFit, DirectoryPaths, ByDepth, Parent, DistinctDirectories;
    var now: int := *;
    made := map[[] := Meta(STAGING_MODE, now)];
    var ordered := SortByDepth(directories);
    MakingOrder(directories, files, ordered);
    for i := 0 to |ordered|
      invariant made.Keys == DirectoryPaths(ordered[..i]) + {[]}
      invariant forall p | p in made :: made[p].mode == STAGING_MODE
    {
      var d := ordered[i];
      NextToMake(directories, files, ordered, i);
      if d.path != [] {
        assert Parent(d.path) in made && d.path !in made;
        now := *;
        made := Stamped(made, Parent(d.path), now)[d.path := Meta(STAGING_MODE, now)];
      }
    }
    assert ordered[..|ordered|] == ordered;
  }

  lemma MakingOrder(directories: seq<SourceDirectory>, files: seq<SourceFile>, ordered: seq<SourceDirectory>)
    requires DirectoriesFit(directories, files) && multiset(ordered) == multiset(directories)
    ensures DistinctDirectories(ordered) && DirectoryPaths(ordered) == DirectoryPaths(directories)
    ensures forall d :: d in ordered <==> d in directories
    ensures DirectoryPaths(ordered[..0]) == {} && DirectoryPaths(ordered) + {[]} == DirectoryPaths(ordered)
  {
    PermutedDirectories(directories, ordered);
  }

  /** The next directory to make is new, and its parent was made before. */
  lemma NextToMake(directories: seq<SourceDirectory>, files: seq<SourceFile>, ordered: seq<SourceDirectory>, i: nat)
    requires DirectoriesFit(directories, files) && DirectoryPaths(ordered) == DirectoryPaths(directories)
    requires ByDepth(ordered) && DistinctDirectories(ordered) && i < |ordered|
    ensures DirectoryPaths(ordered[..i + 1]) == DirectoryPaths(ordered[..i]) + {ordered[i].path}
    ensures ordered[i].path !in DirectoryPaths(ordered[..i])
    ensures ordered[i].path != [] ==> Parent(ordered[i].path) in DirectoryPaths(ordered[..i])
  {
    hide DirectoryPaths, DistinctDirectories;
    NextIsNew(ordered, i);
    if ordered[i].path != [] {
      PathAt(ordered, i);
      ParentHolds(directories, files, ordered[i].path);
      ParentBefore(directories, ordered, i);
    }
  }

  lemma PathAt(s: seq<SourceDirectory>, i: nat)
    requires i < |s|
    ensures s[i].path in DirectoryPaths(s)
  {
    assert s[i] in s;
  }

  lemma NextIsNew(ordered: seq<SourceDirectory>, i: nat)
    requires DistinctDirectories(ordered) && i < |ordered|
    ensures DirectoryPaths(ordered[..i + 1]) == DirectoryPaths(ordered[..i]) + {ordered[i].path}
    ensures ordered[i].path !in DirectoryPaths(ordered[..i])
  {
    assert ordered[..i + 1] == ordered[..i] + [ordered[i]];
  }

  /** Shallower directories come before deeper ones. */
  lemma Shallower(ordered: seq<SourceDirectory>, j: nat, i: nat)
    requires ByDepth(ordered) && i < |ordered| && j < |ordered| && |ordered[j].path| < |ordered[i].path|
    ensures j < i
  {
    assert i != j;
  }

  lemma ParentBefore(directories: seq<SourceDirectory>, ordered: seq<SourceDirectory>, i: nat)
    requires ByDepth(ordered) && i < |ordered| && ordered[i].path != []
    requires DirectoryPaths(ordered) == DirectoryPaths(directories) && Parent(ordered[i].path) in DirectoryPaths(directories)
    ensures Parent(ordered[i].path) in DirectoryPaths(ordered[..i])
  {
    var j := DirectoryAt(directories, ordered, Parent(ordered[i].path));
    Shallower(ordered, j, i);
    assert ordered[..i][j] == ordered[j];
    PathAt(ordered[..i], j);
  }

  lemma ParentHolds(directories: seq<SourceDirectory>, files: seq<SourceFile>, p: Path)
    requires DirectoriesFit(directories, files) && p in DirectoryPaths(directories) && p != []
    ensures Parent(p) in DirectoryPaths(directories)
  {
    var d :| d in directories && d.path == p;
    hide DirectoryPaths;
  }

  lemma DirectoryAt(directories: seq<SourceDirectory>, ordered: seq<SourceDirectory>, p: Path) returns (j: nat)
    requires DirectoryPaths(ordered) == DirectoryPaths(directories) && p in DirectoryPaths(directories)
    ensures j < |ordered| && ordered[j].path == p
  {
    var e :| e in ordered && e.path == p;
    j :| 0 <= j < |ordered| && ordered[j] == e;
  }

  /** Writing a file, a link or the manifest into an existing directory. */
  method CreateEntry(t: Directories, directories: seq<SourceDirectory>, p: Path) returns (u: Directories)
    requires Open(t, directories) && p != [] && Parent(p) in DirectoryPaths(directories)
    ensures Open(u, directories)
  {
    var now: int := *;
    u := Stamped(t, Parent(p), now);
  }

  lemma {:induction false} PrefixesAreDirectories(directories: seq<SourceDirectory>, files: seq<SourceFile>, p: Path, n: nat)
    requires DirectoriesFit(directories, files) && p in DirectoryPaths(directories) && n <= |p|
    ensures p[..n] in DirectoryPaths(directories)
    decreases |p| - n
  {
    if n == |p| {
      assert p[..n] == p;
    } else {
      PrefixesAreDirectories(directories, files, p, n + 1);
      ParentHolds(directories, files, p[..n + 1]);
      assert Parent(p[..n + 1]) == p[..n];
    }
  }

  /** _apply_directory_metadata, bottom up: every chmod reaches its directory, because all directories above still have the
      staging mode, and what one of them sets no later one disturbs. */
  method ApplyDirectoryMetadata(directories: seq<SourceDirectory>, ghost files: seq<SourceFile>, made: Directories)
    returns (applied: Directories)
    requires DirectoriesFit(directories, files) && Open(made, directories)
    ensures applied.Keys == DirectoryPaths(directories)
    ensures forall d | d in directories :: applied[d.path] == Meta(d.mode, d.mtime)
  {
    hide DirectoriesFit, DirectoryPaths, ByDepth, Reachable, DistinctDirectories;
    var ordered := SortByDepth(directories);
    MakingOrder(directories, files, ordered);
    OpenEverywhere(made, directories, ordered);
    applied := made;
    for i := |ordered| downto 0
      invariant applied.Keys == DirectoryPaths(directories)
      invariant forall j | 0 <= j < |ordered| :: ordered[j].path in applied
      invariant forall j | i <= j < |ordered| :: applied[ordered[j].path] == Meta(ordered[j].mode, ordered[j].mtime)
      invariant forall j | 0 <= j < i :: applied[ordered[j].path].mode == STAGING_MODE
    {
      var d := ordered[i];
      AboveIsOpen(directories, files, ordered, i, applied);
      assert Reachable(applied, d.path);
      Differ(ordered);
      applied := applied[d.path := Meta(d.mode, d.mtime)];
    }
  }

  lemma OpenEverywhere(t: Directories, directories: seq<SourceDirectory>, ordered: seq<SourceDirectory>)
    requires Open(t, directories) && DirectoryPaths(ordered) == DirectoryPaths(directories)
    ensures forall j | 0 <= j < |ordered| :: ordered[j].path in t && t[ordered[j].path].mode == STAGING_MODE
  {
    forall j | 0 <= j < |ordered| ensures ordered[j].path in t {
      assert ordered[j] in ordered;
    }
  }

  lemma Differ(ordered: seq<SourceDirectory>)
    requires DistinctDirectories(ordered)
    ensures forall i, j | 0 <= i < |ordered| && 0 <= j < |ordered| && i != j :: ordered[i].path != ordered[j].path
  {
  }

  lemma AboveIsOpen(directories: seq<SourceDirectory>, files: seq<SourceFile>, ordered: seq<SourceDirectory>, i: nat, t: Directories)
    requires DirectoriesFit(directories, files) && ByDepth(ordered) && i < |ordered|
    requires DirectoryPaths(ordered) == DirectoryPaths(directories) == t.Keys
    requires forall j | 0 <= j < i :: ordered[j].path in t && t[ordered[j].path].mode == STAGING_MODE
    ensures Reachable(t, ordered[i].path)
  {
    var p := ordered[i].path;
    assert ordered[i] in ordered;
    forall n | 0 <= n < |p| ensures p[..n] in t && Searchable(t[p[..n]]) {
      PrefixIsOpen(directories, files, ordered, i, t, n);
    }
  }

  lemma PrefixIsOpen(directories: seq<SourceDirectory>, files: seq<SourceFile>, ordered: seq<SourceDirectory>, i: nat, t: Directories, n: nat)
    requires DirectoriesFit(directories, files) && ByDepth(ordered) && i < |ordered| && n < |ordered[i].path|
    requires DirectoryPaths(ordered) == DirectoryPaths(directories) == t.Keys && ordered[i].path in DirectoryPaths(directories)
    requires forall j | 0 <= j < i :: ordered[j].path in t && t[ordered[j].path].mode == STAGING_MODE
    ensures ordered[i].path[..n] in t && Searchable(t[ordered[i].path[..n]])
  {
    hide DirectoriesFit, DirectoryPaths;
    PrefixesAreDirectories(directories, files, ordered[i].path, n);
    var j := DirectoryAt(directories, ordered, ordered[i].path[..n]);
  }

  /** The verifier's checks on directories: the recorded ones exactly, each with its recorded mode and time. */
  predicate DirectoriesVerify(records: seq<SourceDirectory>, t: Directories) {
    && DistinctDirectories(records) && t.Keys == DirectoryPaths(records)
    && forall d | d in records :: d.mode >= 0 && d.mtime >= 0 && t[d.path] == Meta(d.mode, d.mtime)
  }
}
