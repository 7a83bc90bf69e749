/** Backups (scripts/cval-backup.py): the inventory, the copied tree, the manifest records, and what the verifier
    demands of them. */
module BackupRecords {
  import opened Wrappers

  type Path = seq<string>

  datatype Key = Key(dev: nat, inode: nat)

  /** File content by digest; sound: an SQLite quick check passes. */
  datatype Content = Content(digest: nat, size: nat, sqlite: bool, sound: bool)

  datatype SourceFile = SourceFile(path: Path, key: Key, nlink: nat, size: nat, mode: int, mtime: int, ctime: int)

  datatype CopyMethod = RegularCopy | SqliteBackup | Hardlink | HistoryByteCopy

  datatype FileRecord = FileRecord(path: Path, size: nat, mode: int, mtime: int, digest: nat, copyMethod: CopyMethod, sqlite: bool,
                                   group: Option<Key>, sourceKey: Key, sourceSize: nat, sourceDigest: nat, sourceNlink: nat,
                                   sourceMtime: int, sourceCtime: int)

  datatype Node = Node(content: Content, mode: int, mtime: int)

  /** Regular files of the backup by path, over numbered inodes; the link count of an inode is the number of its paths. */
  datatype Tree = Tree(paths: map<Path, nat>, inodes: map<nat, Node>)

  datatype Manifest = Manifest(files: seq<FileRecord>, fileCount: nat, sourceBytes: nat, backupBytes: nat, preserveHistory: bool)

  const MANIFEST_PATH: Path := ["manifest.json"]

  const HISTORY_ROOTS: set<string> := {"backups", "archive", "archives"}

  predicate IsHistory(path: Path) {
    path != [] && path[0] in HISTORY_ROOTS
  }

  predicate Historical(preserve: bool, path: Path) {
    preserve && IsHistory(path)
  }

  /** The files of one inode, in order. */
  function GroupOf(files: seq<SourceFile>, key: Key): seq<SourceFile> {
    if files == [] then []
    else GroupOf(files[..|files| - 1], key) + (if files[|files| - 1].key == key then [files[|files| - 1]] else [])
  }

  /** One stat result per inode, and nothing outside the tree links to it. */
  predicate LinksClosed(files: seq<SourceFile>) {
    forall f | f in files :: f.nlink == |GroupOf(files, f.key)|
  }

  predicate DistinctPaths(files: seq<SourceFile>) {
    forall i, j | 0 <= i < j < |files| :: files[i].path != files[j].path
  }

  /** What an inventory of a quiet tree looks like: one set of metadata per inode, times after the epoch. */
  predicate InventoryFits(files: seq<SourceFile>, contents: map<Key, Content>) {
    && DistinctPaths(files)
    && (forall f | f in files ::
          && f.path != [] && 0 <= f.mode <= 0xFFF && f.mtime >= 0 && f.ctime >= 0
          && f.key in contents && contents[f.key].size == f.size)
    && (forall f, g | f in files && g in files && f.key == g.key :: f.(path := g.path) == g)
  }

  /** Nothing of the source takes the manifest's place. */
  predicate ManifestFree(files: seq<SourceFile>) {
    forall f | f in files :: f.path != MANIFEST_PATH
  }

  /** Sizes counted once per key, at its first occurrence. */
  function UniqueSum<K(==)>(keys: seq<K>, sizes: seq<nat>): nat
    requires |keys| == |sizes|
  {
    if keys == [] then 0
    else
      var n := |keys| - 1;
      UniqueSum(keys[..n], sizes[..n]) + (if keys[n] in keys[..n] then 0 else sizes[n])
  }

  function LinksTo(tree: Tree, inode: nat): set<Path> {
    set p | p in tree.paths && tree.paths[p] == inode
  }

  function MembersOf(records: seq<FileRecord>, group: Key): seq<FileRecord> {
    if records == [] then []
    else MembersOf(records[..|records| - 1], group) + (if records[|records| - 1].group == Some(group) then [records[|records| - 1]] else [])
  }

  function Originals(records: seq<FileRecord>): nat {
    if records == [] then 0
    else Originals(records[..|records| - 1]) + (if records[|records| - 1].copyMethod == Hardlink then 0 else 1)
  }

  /** The checks of one manifest file entry against the tree. */
  predicate EntryFits(preserve: bool, r: FileRecord, tree: Tree) {
    && r.path != [] && r.path != MANIFEST_PATH && 0 <= r.mode <= 0xFFF && r.mtime >= 0 && r.sourceMtime == r.mtime && r.sourceCtime >= 0
    && (r.copyMethod == HistoryByteCopy ==> Historical(preserve, r.path))
    && r.path in tree.paths && tree.paths[r.path] in tree.inodes
    && var node := tree.inodes[tree.paths[r.path]];
    && node.content.size == r.size && node.mode == r.mode && node.mtime == r.mtime
    && node.content.digest == r.digest && node.content.sqlite == r.sqlite
    && (r.group == None ==> |LinksTo(tree, tree.paths[r.path])| == 1 && r.copyMethod != Hardlink)
  }

  /** The two checks that depend on what was copied: history kept byte for byte, other databases sound. */
  predicate ContentFits(preserve: bool, r: FileRecord, tree: Tree) {
    && r.path in tree.paths && tree.paths[r.path] in tree.inodes
    && (if Historical(preserve, r.path) then r.digest == r.sourceDigest && r.size == r.sourceSize
        else r.sqlite ==> tree.inodes[tree.paths[r.path]].content.sound)
  }

  /** A hard link group: at least two paths of one inode and nothing else, one of them the copy, one source inode. */
  predicate GroupFits(members: seq<FileRecord>, tree: Tree) {
    && |members| >= 2 && members[0].path in tree.paths
    && (forall r | r in members :: r.path in tree.paths && tree.paths[r.path] == tree.paths[members[0].path])
    && |LinksTo(tree, tree.paths[members[0].path])| == |members|
    && Originals(members) == 1
    && (forall r | r in members :: r.sourceKey == members[0].sourceKey && r.sourceNlink == |members|)
  }

  function RecordPaths(records: seq<FileRecord>): set<Path> {
    set r | r in records :: r.path
  }

  function SourceKeys(records: seq<FileRecord>): seq<Key> {
    seq(|records|, i requires 0 <= i < |records| => records[i].sourceKey)
  }

  function SourceSizes(records: seq<FileRecord>): seq<nat> {
    seq(|records|, i requires 0 <= i < |records| => records[i].sourceSize)
  }

  function BackupKeys(records: seq<FileRecord>, tree: Tree): seq<nat>
    requires forall r | r in records :: r.path in tree.paths
  {
    seq(|records|, i requires 0 <= i < |records| => tree.paths[records[i].path])
  }

  function BackupSizes(records: seq<FileRecord>): seq<nat> {
    seq(|records|, i requires 0 <= i < |records| => records[i].size)
  }

  predicate DistinctRecords(records: seq<FileRecord>) {
    forall i, j | 0 <= i < j < |records| :: records[i].path != records[j].path
  }

  /** Everything verify_backup checks of the files but their contents. */
  predicate Consistent(m: Manifest, tree: Tree) {
    && DistinctRecords(m.files)
    && tree.paths.Keys == RecordPaths(m.files) + {MANIFEST_PATH}
    && tree.paths[MANIFEST_PATH] in tree.inodes && tree.inodes[tree.paths[MANIFEST_PATH]].mode == 0x180
    && (forall r | r in m.files :: EntryFits(m.preserveHistory, r, tree))
    && (forall r | r in m.files && r.group.Some? :: GroupFits(MembersOf(m.files, r.group.value), tree))
    && m.fileCount == |m.files|
    && m.sourceBytes == UniqueSum(SourceKeys(m.files), SourceSizes(m.files))
    && m.backupBytes == UniqueSum(BackupKeys(m.files, tree), BackupSizes(m.files))
  }

  /** All checks of verify_backup on the files. */
  predicate FilesVerify(m: Manifest, tree: Tree) {
    Consistent(m, tree) && forall r | r in m.files :: ContentFits(m.preserveHistory, r, tree)
  }

  function SetOf<K(==)>(keys: seq<K>): set<K> {
    set k | k in keys
  }

  /** The verifier's running totals with their seen-inode sets. */
  method RecountBytes(records: seq<FileRecord>, tree: Tree) returns (source: nat, backup: nat)
    requires forall r | r in records :: r.path in tree.paths
    ensures source == UniqueSum(SourceKeys(records), SourceSizes(records))
    ensures backup == UniqueSum(BackupKeys(records, tree), BackupSizes(records))
  {
    source, backup := 0, 0;
    var seenBackup: set<nat> := {};
    var seenSource: set<Key> := {};
    for i := 0 to |records|
      invariant source == UniqueSum(SourceKeys(records)[..i], SourceSizes(records)[..i])
      invariant backup == UniqueSum(BackupKeys(records, tree)[..i], BackupSizes(records)[..i])
      invariant seenSource == SetOf(SourceKeys(records)[..i])
      invariant seenBackup == SetOf(BackupKeys(records, tree)[..i])
    {
      hide UniqueSum, SetOf, SourceKeys, SourceSizes, BackupKeys, BackupSizes;
      NextSums(records, tree, i);
      var inode := tree.paths[records[i].path];
      if inode !in seenBackup {
        backup := backup + records[i].size;
        seenBackup := seenBackup + {inode};
      }
      if records[i].sourceKey !in seenSource {
        source := source + records[i].sourceSize;
        seenSource := seenSource + {records[i].sourceKey};
      }
    }
    WholePrefixes(records, tree);
  }

  /** One more record: its size counts where its inode is new. */
  lemma NextSums(records: seq<FileRecord>, tree: Tree, i: nat)
    requires (forall r | r in records :: r.path in tree.paths) && i < |records|
    ensures records[i].path in tree.paths
    ensures |SourceKeys(records)| == |SourceSizes(records)| == |BackupKeys(records, tree)| == |BackupSizes(records)| == |records|
    ensures var k, sums := records[i].sourceKey, UniqueSum(SourceKeys(records)[..i], SourceSizes(records)[..i]);
      && UniqueSum(SourceKeys(records)[..i + 1], SourceSizes(records)[..i + 1])
         == sums + (if k in SetOf(SourceKeys(records)[..i]) then 0 else records[i].sourceSize)
      && SetOf(SourceKeys(records)[..i + 1]) == SetOf(SourceKeys(records)[..i]) + {k}
    ensures var k, sums := tree.paths[records[i].path], UniqueSum(BackupKeys(records, tree)[..i], BackupSizes(records)[..i]);
      && UniqueSum(BackupKeys(records, tree)[..i + 1], BackupSizes(records)[..i + 1])
         == sums + (if k in SetOf(BackupKeys(records, tree)[..i]) then 0 else records[i].size)
      && SetOf(BackupKeys(records, tree)[..i + 1]) == SetOf(BackupKeys(records, tree)[..i]) + {k}
  {
    hide UniqueSum;
    UniqueSumNext(SourceKeys(records), SourceSizes(records), i);
    UniqueSumNext(BackupKeys(records, tree), BackupSizes(records), i);
  }

  lemma UniqueSumNext<K>(keys: seq<K>, sizes: seq<nat>, i: nat)
    requires |keys| == |sizes| && i < |keys|
    ensures UniqueSum(keys[..i + 1], sizes[..i + 1]) == UniqueSum(keys[..i], sizes[..i]) + (if keys[i] in keys[..i] then 0 else sizes[i])
    ensures keys[..i + 1] == keys[..i] + [keys[i]] && SetOf(keys[..i + 1]) == SetOf(keys[..i]) + {keys[i]}
  {
    assert keys[..i + 1][..i] == keys[..i] && sizes[..i + 1][..i] == sizes[..i];
  }

  lemma WholePrefixes(records: seq<FileRecord>, tree: Tree)
    requires forall r | r in records :: r.path in tree.paths
    ensures SourceKeys(records)[..|records|] == SourceKeys(records) && SourceSizes(records)[..|records|] == SourceSizes(records)
    ensures BackupKeys(records, tree)[..|records|] == BackupKeys(records, tree) && BackupSizes(records)[..|records|] == BackupSizes(records)
  {
  }

  /** hardlink_groups: group by inode, and refuse a group that is not closed. */
  method HardlinkGroups(files: seq<SourceFile>) returns (ok: bool, groups: map<Key, seq<SourceFile>>)
    ensures ok <==> LinksClosed(files)
    ensures ok ==> forall k :: if k in groups then groups[k] == GroupOf(files, k) != [] else GroupOf(files, k) == []
  {
    groups := map[];
    for i := 0 to |files|
      invariant forall k :: if k in groups then groups[k] == GroupOf(files[..i], k) != [] else GroupOf(files[..i], k) == []
    {
      assert files[..i + 1][..i] == files[..i];
      var f := files[i];
      groups := groups[f.key := (if f.key in groups then groups[f.key] else []) + [f]];
    }
    assert files[..|files|] == files;
    ok := true;
    var todo := groups.Keys;
    while todo != {}
      invariant todo <= groups.Keys && ok
      invariant forall k, f | k in groups.Keys - todo && f in groups[k] :: f.nlink == |groups[k]|
      decreases |todo|
    {
      var k :| k in todo;
      todo := todo - {k};
      if exists i :: 0 <= i < |groups[k]| && groups[k][i].nlink != |groups[k]| {
        var i :| 0 <= i < |groups[k]| && groups[k][i].nlink != |groups[k]|;
        GroupMembers(files, k, groups[k][i]);
        return false, groups;
      }
    }
    forall f | f in files ensures f.nlink == |GroupOf(files, f.key)| {
      GroupMembers(files, f.key, f);
      assert f.key in groups;
    }
  }

  lemma {:induction false} GroupMembers(files: seq<SourceFile>, key: Key, f: SourceFile)
    ensures f in GroupOf(files, key) <==> f in files && f.key == key
  {
    if files != [] {
      var front, last := files[..|files| - 1], files[|files| - 1];
      assert files == front + [last];
      GroupMembers(front, key, f);
    }
  }
}
