/** create_backup (scripts/cval-backup.py): copy every inode once, link its other paths, record each file, and end with
    a manifest that the verifier accepts. */
module BackupCreation {
  import opened Wrappers
  import opened BackupDirectories
  import opened BackupRecords

  /** What SQLite's online backup makes of each database: again a database, and one that passes the quick check. */
  predicate CopiesFit(contents: map<Key, Content>, copies: map<Key, Content>) {
    forall k | k in contents && contents[k].sqlite :: k in copies && copies[k].sqlite && copies[k].sound
  }

  function First(files: seq<SourceFile>, key: Key): Option<SourceFile> {
    if GroupOf(files, key) == [] then None else Some(GroupOf(files, key)[0])
  }

  predicate ByteCopied(preserve: bool, files: seq<SourceFile>, key: Key) {
    First(files, key).Some? && Historical(preserve, First(files, key).value.path)
  }

  /** The content that all backup paths of an inode share: the first path decides how it is copied. */
  function Copied(preserve: bool, files: seq<SourceFile>, contents: map<Key, Content>, copies: map<Key, Content>, key: Key): Content
    requires key in contents && CopiesFit(contents, copies)
  {
    if !ByteCopied(preserve, files, key) && contents[key].sqlite then copies[key] else contents[key]
  }

  function CopyMethodOf(preserve: bool, f: SourceFile, sqlite: bool): CopyMethod {
    if Historical(preserve, f.path) then HistoryByteCopy else if sqlite then SqliteBackup else RegularCopy
  }

  /** The manifest entry of the i-th file. */
  function RecordOf(preserve: bool, files: seq<SourceFile>, contents: map<Key, Content>, copies: map<Key, Content>, i: nat): FileRecord
    requires i < |files| && files[i].key in contents && CopiesFit(contents, copies)
  {
    var f := files[i];
    var c := Copied(preserve, files, contents, copies, f.key);
    FileRecord(f.path, c.size, f.mode, f.mtime, c.digest,
               if GroupOf(files[..i], f.key) == [] then CopyMethodOf(preserve, f, contents[f.key].sqlite) else Hardlink,
               contents[f.key].sqlite, if |GroupOf(files, f.key)| > 1 then Some(f.key) else None,
               f.key, f.size, contents[f.key].digest, f.nlink, f.mtime, f.ctime)
  }

  function KeysOf(files: seq<SourceFile>): seq<Key> {
    seq(|files|, i requires 0 <= i < |files| => files[i].key)
  }

  function SizesOf(files: seq<SourceFile>): seq<nat> {
    seq(|files|, i requires 0 <= i < |files| => files[i].size)
  }

  /** UniqueSum over some of the keys. */
  function UniqueSumIn<K(==)>(keys: seq<K>, sizes: seq<nat>, chosen: set<K>): nat
    requires |keys| == |sizes|
  {
    if keys == [] then 0
    else
      var n := |keys| - 1;
      UniqueSumIn(keys[..n], sizes[..n], chosen) + (if keys[n] in keys[..n] || keys[n] !in chosen then 0 else sizes[n])
  }

  lemma {:induction false} ChosenAll<K>(keys: seq<K>, sizes: seq<nat>, chosen: set<K>)
    requires |keys| == |sizes| && forall k | k in keys :: k in chosen
    ensures UniqueSumIn(keys, sizes, chosen) == UniqueSum(keys, sizes)
  {
    if keys != [] {
      var n := |keys| - 1;
      assert keys[n] in keys;
      ChosenAll(keys[..n], sizes[..n], chosen);
    }
  }

  lemma {:induction false} ChosenNone<K>(keys: seq<K>, sizes: seq<nat>)
    requires |keys| == |sizes|
    ensures UniqueSumIn(keys, sizes, {}) == 0
  {
    if keys != [] {
      ChosenNone(keys[..|keys| - 1], sizes[..|keys| - 1]);
    }
  }

  lemma {:induction false} ChosenLess<K>(keys: seq<K>, sizes: seq<nat>, chosen: set<K>, k: K, v: nat)
    requires |keys| == |sizes| && k in chosen
    requires forall i | 0 <= i < |keys| && keys[i] == k :: sizes[i] == v
    ensures UniqueSumIn(keys, sizes, chosen) == UniqueSumIn(keys, sizes, chosen - {k}) + (if k in keys then v else 0)
  {
    if keys != [] {
      var n := |keys| - 1;
      assert keys == keys[..n] + [keys[n]];
      ChosenLess(keys[..n], sizes[..n], chosen, k, v);
    }
  }

  /** Summing a dictionary over its values, in any order. */
  method SumValues<K(==)>(m: map<K, nat>, ghost keys: seq<K>, ghost sizes: seq<nat>) returns (total: nat)
    requires |keys| == |sizes| && (forall k :: k in m <==> k in keys) && forall i | 0 <= i < |keys| :: m[keys[i]] == sizes[i]
    ensures total == UniqueSum(keys, sizes)
  {
    total := 0;
    var todo := m.Keys;
    ChosenAll(keys, sizes, todo);
    while todo != {}
      invariant todo <= m.Keys && total + UniqueSumIn(keys, sizes, todo) == UniqueSum(keys, sizes)
      decreases |todo|
    {
      var k :| k in todo;
      ChosenLess(keys, sizes, todo, k, m[k]);
      total := total + m[k];
      todo := todo - {k};
    }
    ChosenNone(keys, sizes);
  }

  lemma GroupSize(files: seq<SourceFile>, contents: map<Key, Content>, i: nat)
    requires InventoryFits(files, contents) && i < |files|
    ensures GroupOf(files, files[i].key) != [] && GroupOf(files, files[i].key)[0].size == files[i].size
  {
    GroupMembers(files, files[i].key, files[i]);
    var g := GroupOf(files, files[i].key)[0];
    GroupMembers(files, files[i].key, g);
    assert g in files && files[i] in files;
  }

  lemma GroupKeys(files: seq<SourceFile>, k: Key)
    ensures GroupOf(files, k) != [] <==> k in KeysOf(files)
  {
    if GroupOf(files, k) != [] {
      GroupMembers(files, k, GroupOf(files, k)[0]);
      var i :| 0 <= i < |files| && files[i] == GroupOf(files, k)[0];
      assert KeysOf(files)[i] == k;
    }
    if k in KeysOf(files) {
      var i :| 0 <= i < |files| && KeysOf(files)[i] == k;
      GroupMembers(files, k, files[i]);
    }
  }

  /** unique_bytes: one size per group. */
  method UniqueBytes(files: seq<SourceFile>, ghost contents: map<Key, Content>) returns (ok: bool, total: nat)
    requires InventoryFits(files, contents)
    ensures ok <==> LinksClosed(files)
    ensures ok ==> total == UniqueSum(KeysOf(files), SizesOf(files))
  {
    hide InventoryFits, GroupOf, KeysOf;
    var groups: map<Key, seq<SourceFile>>;
    ok, groups := HardlinkGroups(files);
    total := 0;
    if ok {
      var sizes := map k | k in groups :: groups[k][0].size;
      forall k ensures k in sizes <==> k in KeysOf(files) {
        GroupKeys(files, k);
      }
      KeyCount(files);
      forall i | 0 <= i < |files| ensures KeysOf(files)[i] in sizes && sizes[KeysOf(files)[i]] == SizesOf(files)[i] {
        GroupSize(files, contents, i);
        KeyAt(files, i);
      }
      total := SumValues(sizes, KeysOf(files), SizesOf(files));
    }
  }

  lemma KeyAt(files: seq<SourceFile>, i: nat)
    requires i < |files|
    ensures |KeysOf(files)| == |files| && KeysOf(files)[i] == files[i].key
  {
  }

  lemma KeyCount(files: seq<SourceFile>)
    ensures |KeysOf(files)| == |files|
  {
  }

  function PathSet(files: seq<SourceFile>): set<Path> {
    set f | f in files :: f.path
  }

  function KeySet(files: seq<SourceFile>): set<Key> {
    set f | f in files :: f.key
  }

  lemma SetsSnoc(files: seq<SourceFile>, i: nat)
    requires i < |files|
    ensures PathSet(files[..i + 1]) == PathSet(files[..i]) + {files[i].path}
    ensures KeySet(files[..i + 1]) == KeySet(files[..i]) + {files[i].key}
  {
  }

  lemma GroupsAndKeys(files: seq<SourceFile>, k: Key)
    ensures k in KeySet(files) <==> GroupOf(files, k) != []
  {
  }

  lemma {:induction false} GroupPrefix(files: seq<SourceFile>, n: nat, k: Key)
    requires n <= |files|
    ensures GroupOf(files[..n], k) <= GroupOf(files, k)
    decreases |files| - n
  {
    if n == |files| {
      assert files[..n] == files;
    } else {
      assert files[..n + 1][..n] == files[..n];
      GroupPrefix(files, n + 1, k);
    }
  }

  /** A file of a new inode is the first of its group. */
  lemma FirstHere(files: seq<SourceFile>, i: nat)
    requires i < |files| && GroupOf(files[..i], files[i].key) == []
    ensures First(files, files[i].key) == Some(files[i])
  {
    assert files[..i + 1][..i] == files[..i];
    GroupPrefix(files, i + 1, files[i].key);
  }

  function NodeOf(preserve: bool, files: seq<SourceFile>, contents: map<Key, Content>, copies: map<Key, Content>, f: SourceFile): Node
    requires CopiesFit(contents, copies) && f.key in contents
  {
    Node(Copied(preserve, files, contents, copies, f.key), f.mode, f.mtime)
  }

  predicate FileStaged(f: SourceFile, node: Node, tree: Tree, inodeOf: map<Key, nat>) {
    && f.key in inodeOf && f.path in tree.paths && tree.paths[f.path] == inodeOf[f.key]
    && inodeOf[f.key] in tree.inodes && tree.inodes[inodeOf[f.key]] == node
  }

  predicate Injective(inodeOf: map<Key, nat>, tree: Tree) {
    && (forall k, l | k in inodeOf && l in inodeOf && k != l :: inodeOf[k] != inodeOf[l])
    && (forall k | k in inodeOf :: inodeOf[k] in tree.inodes)
  }

  /** The staging tree after the first i files: one inode per source inode, shared exactly as in the source. */
  ghost predicate Staged(preserve: bool, files: seq<SourceFile>, contents: map<Key, Content>, copies: map<Key, Content>, i: nat,
                         tree: Tree, inodeOf: map<Key, nat>)
    requires i <= |files| && CopiesFit(contents, copies) && forall f | f in files :: f.key in contents
  {
    && tree.paths.Keys == PathSet(files[..i]) && inodeOf.Keys == KeySet(files[..i]) && Injective(inodeOf, tree)
    && FilesStaged(preserve, files, contents, copies, i, tree, inodeOf)
  }

  ghost predicate FilesStaged(preserve: bool, files: seq<SourceFile>, contents: map<Key, Content>, copies: map<Key, Content>, i: nat,
                              tree: Tree, inodeOf: map<Key, nat>)
    requires i <= |files| && CopiesFit(contents, copies) && forall f | f in files :: f.key in contents
  {
    forall j | 0 <= j < i :: FileStaged(files[j], NodeOf(preserve, files, contents, copies, files[j]), tree, inodeOf)
  }

  lemma NothingStaged(preserve: bool, files: seq<SourceFile>, contents: map<Key, Content>, copies: map<Key, Content>)
    requires CopiesFit(contents, copies) && forall f | f in files :: f.key in contents
    ensures Staged(preserve, files, contents, copies, 0, Tree(map[], map[]), map[])
  {
  }

  /** The new path is not one of the earlier files'. */
  lemma FreshPath(files: seq<SourceFile>, contents: map<Key, Content>, i: nat)
    requires InventoryFits(files, contents) && i < |files|
    ensures forall a | 0 <= a < i :: files[a].path != files[i].path
  {
  }

  lemma SameMetadata(preserve: bool, files: seq<SourceFile>, contents: map<Key, Content>, copies: map<Key, Content>, i: nat, j: nat)
    requires InventoryFits(files, contents) && CopiesFit(contents, copies) && i < |files| && j < |files| && files[i].key == files[j].key
    ensures NodeOf(preserve, files, contents, copies, files[i]) == NodeOf(preserve, files, contents, copies, files[j])
  {
  }

  lemma EarlierOfKey(files: seq<SourceFile>, i: nat, k: Key) returns (j: nat)
    requires i <= |files| && k in KeySet(files[..i])
    ensures j < i && files[j].key == k
  {
    var g :| g in files[..i] && g.key == k;
    j :| 0 <= j < i && files[..i][j] == g;
  }

  lemma FilesStayLinked(preserve: bool, files: seq<SourceFile>, contents: map<Key, Content>, copies: map<Key, Content>, i: nat, j: nat,
                        tree: Tree, inodeOf: map<Key, nat>)
    requires CopiesFit(contents, copies) && (forall f | f in files :: f.key in contents)
    requires j < i < |files| && files[j].key == files[i].key
    requires NodeOf(preserve, files, contents, copies, files[i]) == NodeOf(preserve, files, contents, copies, files[j])
    requires FilesStaged(preserve, files, contents, copies, i, tree, inodeOf) && forall a | 0 <= a < i :: files[a].path != files[i].path
    ensures files[i].key in inodeOf
    ensures FilesStaged(preserve, files, contents, copies, i + 1, tree.(paths := tree.paths[files[i].path := inodeOf[files[i].key]]), inodeOf)
  {
  }

  lemma StageLink(preserve: bool, files: seq<SourceFile>, contents: map<Key, Content>, copies: map<Key, Content>, i: nat,
                  tree: Tree, inodeOf: map<Key, nat>)
    requires InventoryFits(files, contents) && CopiesFit(contents, copies) && i < |files| && files[i].key in inodeOf
    requires forall f | f in files :: f.key in contents
    requires Staged(preserve, files, contents, copies, i, tree, inodeOf)
    ensures Staged(preserve, files, contents, copies, i + 1, tree.(paths := tree.paths[files[i].path := inodeOf[files[i].key]]), inodeOf)
  {
    hide InventoryFits, Copied, CopiesFit, NodeOf, PathSet, KeySet, FilesStaged;
    SetsSnoc(files, i);
    FreshPath(files, contents, i);
    var j := EarlierOfKey(files, i, files[i].key);
    SameMetadata(preserve, files, contents, copies, i, j);
    FilesStayLinked(preserve, files, contents, copies, i, j, tree, inodeOf);
    assert KeySet(files[..i]) + {files[i].key} == KeySet(files[..i]);
  }

  lemma FilesStayCopied(preserve: bool, files: seq<SourceFile>, contents: map<Key, Content>, copies: map<Key, Content>, i: nat,
                        tree: Tree, inodeOf: map<Key, nat>, inode: nat)
    requires CopiesFit(contents, copies) && (forall f | f in files :: f.key in contents) && i < |files|
    requires FilesStaged(preserve, files, contents, copies, i, tree, inodeOf) && forall a | 0 <= a < i :: files[a].path != files[i].path
    requires inode !in tree.inodes && files[i].key !in inodeOf
    ensures FilesStaged(preserve, files, contents, copies, i + 1,
                        Tree(tree.paths[files[i].path := inode], tree.inodes[inode := NodeOf(preserve, files, contents, copies, files[i])]),
                        inodeOf[files[i].key := inode])
  {
  }

  lemma StageCopy(preserve: bool, files: seq<SourceFile>, contents: map<Key, Content>, copies: map<Key, Content>, i: nat,
                  tree: Tree, inodeOf: map<Key, nat>, inode: nat)
    requires InventoryFits(files, contents) && CopiesFit(contents, copies) && i < |files| && files[i].key !in inodeOf
    requires forall f | f in files :: f.key in contents
    requires Staged(preserve, files, contents, copies, i, tree, inodeOf) && inode !in tree.inodes
    ensures var f := files[i];
      Staged(preserve, files, contents, copies, i + 1,
             Tree(tree.paths[f.path := inode], tree.inodes[inode := NodeOf(preserve, files, contents, copies, f)]),
             inodeOf[f.key := inode])
  {
    hide InventoryFits, Copied, CopiesFit, NodeOf, PathSet, KeySet, FilesStaged;
    SetsSnoc(files, i);
    FreshPath(files, contents, i);
    FilesStayCopied(preserve, files, contents, copies, i, tree, inodeOf, inode);
  }

  predicate Recorded(preserve: bool, files: seq<SourceFile>, contents: map<Key, Content>, copies: map<Key, Content>, records: seq<FileRecord>)
    requires CopiesFit(contents, copies) && forall f | f in files :: f.key in contents
  {
    |records| <= |files| && forall j | 0 <= j < |records| :: records[j] == RecordOf(preserve, files, contents, copies, j)
  }

  lemma StagedKeys(preserve: bool, files: seq<SourceFile>, contents: map<Key, Content>, copies: map<Key, Content>, i: nat,
                   tree: Tree, inodeOf: map<Key, nat>)
    requires CopiesFit(contents, copies) && (forall f | f in files :: f.key in contents) && i < |files|
    requires Staged(preserve, files, contents, copies, i, tree, inodeOf)
    ensures files[i].key in inodeOf <==> GroupOf(files[..i], files[i].key) != []
    ensures forall k | k in inodeOf :: inodeOf[k] in tree.inodes
  {
    GroupsAndKeys(files[..i], files[i].key);
  }

  /** What the loop copies for a new inode is what its group shares. */
  lemma CopiedHere(preserve: bool, files: seq<SourceFile>, contents: map<Key, Content>, copies: map<Key, Content>, i: nat)
    requires CopiesFit(contents, copies) && i < |files| && files[i].key in contents && GroupOf(files[..i], files[i].key) == []
    ensures Copied(preserve, files, contents, copies, files[i].key)
         == if !Historical(preserve, files[i].path) && contents[files[i].key].sqlite then copies[files[i].key] else contents[files[i].key]
  {
    FirstHere(files, i);
  }

  lemma SharedContent(preserve: bool, files: seq<SourceFile>, contents: map<Key, Content>, copies: map<Key, Content>, i: nat,
                      tree: Tree, inodeOf: map<Key, nat>)
    requires CopiesFit(contents, copies) && (forall f | f in files :: f.key in contents) && i < |files|
    requires Staged(preserve, files, contents, copies, i + 1, tree, inodeOf)
    ensures files[i].path in tree.paths && tree.paths[files[i].path] in tree.inodes
    ensures tree.inodes[tree.paths[files[i].path]].content == Copied(preserve, files, contents, copies, files[i].key)
  {
  }

  lemma RecordAdds(preserve: bool, files: seq<SourceFile>, contents: map<Key, Content>, copies: map<Key, Content>,
                   records: seq<FileRecord>, record: FileRecord)
    requires CopiesFit(contents, copies) && forall f | f in files :: f.key in contents
    requires Recorded(preserve, files, contents, copies, records) && |records| < |files|
    requires record == RecordOf(preserve, files, contents, copies, |records|)
    ensures Recorded(preserve, files, contents, copies, records + [record])
  {
  }

  lemma HoldersExist(directories: seq<SourceDirectory>, files: seq<SourceFile>)
    requires DirectoriesFit(directories, files)
    ensures forall f | f in files :: f.path != [] && Parent(f.path) in DirectoryPaths(directories)
  {
  }

  /** The loop of create_backup over the files; any copy may fail. Every file finds its directory. */
  method StageFiles(files: seq<SourceFile>, groups: map<Key, seq<SourceFile>>, contents: map<Key, Content>, copies: map<Key, Content>,
                    preserve: bool, directories: seq<SourceDirectory>, made: Directories)
    returns (ok: bool, tree: Tree, next: nat, ghost inodeOf: map<Key, nat>, sizeOf: map<Key, nat>, records: seq<FileRecord>,
             stamped: Directories)
    requires DirectoriesFit(directories, files) && Open(made, directories)
    requires InventoryFits(files, contents) && CopiesFit(contents, copies) && forall f | f in files :: f.key in contents
    requires forall k :: if k in groups then groups[k] == GroupOf(files, k) != [] else GroupOf(files, k) == []
    ensures ok ==> Staged(preserve, files, contents, copies, |files|, tree, inodeOf) && (forall n | n in tree.inodes :: n < next)
    ensures ok ==> |records| == |files| && Recorded(preserve, files, contents, copies, records)
    ensures ok ==> sizeOf.Keys == inodeOf.Keys && Open(stamped, directories)
    ensures ok ==> forall k | k in sizeOf :: k in contents && sizeOf[k] == Copied(preserve, files, contents, copies, k).size
  {
    hide InventoryFits, CopiesFit, Copied, Staged, Recorded, GroupOf, DirectoriesFit, DirectoryPaths, Open;
    tree, next, inodeOf, sizeOf, records, stamped := Tree(map[], map[]), 0, map[], map[], [], made;
    HoldersExist(directories, files);
    var representative: map<Key, nat> := map[];
    NothingStaged(preserve, files, contents, copies);
    NothingRecorded(preserve, files, contents, copies);
    for i := 0 to |files|
      invariant Staged(preserve, files, contents, copies, i, tree, inodeOf) && representative == inodeOf
      invariant forall n | n in tree.inodes :: n < next
      invariant |records| == i && Recorded(preserve, files, contents, copies, records)
      invariant sizeOf.Keys == inodeOf.Keys && Open(stamped, directories)
      invariant forall k | k in sizeOf :: k in contents && sizeOf[k] == Copied(preserve, files, contents, copies, k).size
    {
      var f := files[i];
      var failed: bool := *;
      if failed {
        return false, tree, next, inodeOf, sizeOf, records, stamped;
      }
      stamped := CreateEntry(stamped, directories, f.path);
      StagedKeys(preserve, files, contents, copies, i, tree, inodeOf);
      var copyMethod := Hardlink;
      if f.key in representative {
        StageLink(preserve, files, contents, copies, i, tree, inodeOf);
        tree := tree.(paths := tree.paths[f.path := representative[f.key]]);
      } else {
        copyMethod := CopyMethodOf(preserve, f, contents[f.key].sqlite);
        DatabaseCopied(contents, copies, f.key);
        var content := if copyMethod == SqliteBackup then copies[f.key] else contents[f.key];
        CopiedHere(preserve, files, contents, copies, i);
        StageCopy(preserve, files, contents, copies, i, tree, inodeOf, next);
        tree := Tree(tree.paths[f.path := next], tree.inodes[next := Node(content, f.mode, f.mtime)]);
        inodeOf, representative, sizeOf := inodeOf[f.key := next], representative[f.key := next], sizeOf[f.key := content.size];
        next := next + 1;
      }
      SharedContent(preserve, files, contents, copies, i, tree, inodeOf);
      GroupMembers(files, f.key, f);
      var shared := tree.inodes[tree.paths[f.path]].content;
      var record := FileRecord(f.path, shared.size, f.mode, f.mtime, shared.digest, copyMethod, contents[f.key].sqlite,
                               if |groups[f.key]| > 1 then Some(f.key) else None, f.key, f.size, contents[f.key].digest,
                               f.nlink, f.mtime, f.ctime);
      RecordAdds(preserve, files, contents, copies, records, record);
      records := records + [record];
    }
    ok := true;
  }

  lemma NothingRecorded(preserve: bool, files: seq<SourceFile>, contents: map<Key, Content>, copies: map<Key, Content>)
    requires CopiesFit(contents, copies) && forall f | f in files :: f.key in contents
    ensures Recorded(preserve, files, contents, copies, [])
  {
  }

  lemma DatabaseCopied(contents: map<Key, Content>, copies: map<Key, Content>, k: Key)
    requires CopiesFit(contents, copies) && k in contents
    ensures contents[k].sqlite ==> k in copies
  {
  }
}
