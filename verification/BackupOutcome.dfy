/** Why every backup that is created verifies (scripts/cval-backup.py). */
module BackupOutcome {
  import opened Wrappers
  import opened BackupRecords
  import opened BackupCreation
  import opened BackupDirectories

  /** Two backup paths share an inode exactly when their sources did. */
  predicate SharesExactly(files: seq<SourceFile>, tree: Tree) {
    forall f, g | f in files && g in files ::
      f.path in tree.paths && g.path in tree.paths && (tree.paths[f.path] == tree.paths[g.path] <==> f.key == g.key)
  }

  /** The content checks of the verifier, on the inputs of the backup. */
  predicate FileContentFits(preserve: bool, files: seq<SourceFile>, contents: map<Key, Content>, copies: map<Key, Content>, f: SourceFile)
    requires CopiesFit(contents, copies) && f.key in contents
  {
    var c := Copied(preserve, files, contents, copies, f.key);
    if Historical(preserve, f.path) then c.digest == contents[f.key].digest && c.size == f.size
    else contents[f.key].sqlite ==> c.sound
  }

  predicate ContentsVerify(preserve: bool, files: seq<SourceFile>, contents: map<Key, Content>, copies: map<Key, Content>)
    requires CopiesFit(contents, copies) && forall f | f in files :: f.key in contents
  {
    forall f | f in files :: FileContentFits(preserve, files, contents, copies, f)
  }

  /** What the contents need of hard links across history: a historical path of a database is always copied byte for
      byte, and a database copied that way has current paths only if it is sound. */
  predicate HistorySeparate(preserve: bool, files: seq<SourceFile>, contents: map<Key, Content>)
    requires forall f | f in files :: f.key in contents
  {
    forall f | f in files && contents[f.key].sqlite ::
      if Historical(preserve, f.path) then ByteCopied(preserve, files, f.key)
      else ByteCopied(preserve, files, f.key) ==> contents[f.key].sound
  }

  /** The backup's contents verify whatever the database copies turn out to be, exactly when history is separate. */
  lemma ContentsVerifyIff(preserve: bool, files: seq<SourceFile>, contents: map<Key, Content>)
    requires InventoryFits(files, contents) && forall f | f in files :: f.key in contents
    ensures (forall copies | CopiesFit(contents, copies) :: ContentsVerify(preserve, files, contents, copies))
        <==> HistorySeparate(preserve, files, contents)
  {
    if HistorySeparate(preserve, files, contents) {
      forall copies, f | CopiesFit(contents, copies) && f in files ensures FileContentFits(preserve, files, contents, copies, f) {
        hide GroupOf, First, ByteCopied;
      }
    } else {
      var f :| && f in files && contents[f.key].sqlite
               && !(if Historical(preserve, f.path) then ByteCopied(preserve, files, f.key)
                    else ByteCopied(preserve, files, f.key) ==> contents[f.key].sound);
      var copies := map k | k in contents && contents[k].sqlite :: Content(contents[k].digest + 1, contents[k].size, true, true);
      assert CopiesFit(contents, copies);
      assert !FileContentFits(preserve, files, contents, copies, f) by {
        hide GroupOf, First, ByteCopied;
      }
    }
  }

  /** No hard link crosses current and historical evidence: what capacity_plan refuses to plan otherwise. */
  predicate HistoryUncrossed(preserve: bool, files: seq<SourceFile>) {
    preserve ==> forall f, g | f in files && g in files && f.key == g.key :: IsHistory(f.path) == IsHistory(g.path)
  }

  /** The plan's guard is enough for the contents of every backup. */
  lemma GuardSeparatesHistory(preserve: bool, files: seq<SourceFile>, contents: map<Key, Content>)
    requires HistoryUncrossed(preserve, files) && forall f | f in files :: f.key in contents
    ensures HistorySeparate(preserve, files, contents)
  {
    forall f | f in files ensures ByteCopied(preserve, files, f.key) <==> Historical(preserve, f.path) {
      GroupMembers(files, f.key, f);
      var g := GroupOf(files, f.key)[0];
      GroupMembers(files, f.key, g);
    }
  }

  /** Without the guard a backup could fail its own verification: a database linked from a current and then a historical
      path is copied by SQLite, so its history is not kept byte for byte. */
  lemma GuardIsNeeded(contents: map<Key, Content>, f: SourceFile, g: SourceFile)
    requires InventoryFits([f, g], contents) && f.key == g.key && contents[f.key].sqlite
    requires !IsHistory(f.path) && IsHistory(g.path)
    ensures exists copies :: CopiesFit(contents, copies) && !ContentsVerify(true, [f, g], contents, copies)
  {
    var files := [f, g];
    assert f in files && g in files && files[..1] == [f] && files[..1][..0] == [];
    assert GroupOf(files[..1][..0], f.key) == [];
    assert GroupOf(files[..1], f.key) == [f];
    assert GroupOf(files, f.key) == [f, g];
    assert !HistorySeparate(true, files, contents);
    ContentsVerifyIff(true, files, contents);
  }

  lemma {:induction false} PathCard(files: seq<SourceFile>)
    requires DistinctPaths(files)
    ensures |PathSet(files)| == |files|
  {
    if files != [] {
      var n := |files| - 1;
      assert DistinctPaths(files[..n]);
      PathCard(files[..n]);
      SetsSnoc(files, n);
      assert files[..n + 1] == files;
      assert files[n].path !in PathSet(files[..n]);
    }
  }

  lemma {:induction false} GroupDistinct(files: seq<SourceFile>, k: Key)
    requires DistinctPaths(files)
    ensures DistinctPaths(GroupOf(files, k))
  {
    if files != [] {
      var front, last := files[..|files| - 1], files[|files| - 1];
      assert DistinctPaths(front);
      GroupDistinct(front, k);
      forall g | g in GroupOf(front, k) ensures g.path != last.path {
        GroupMembers(front, k, g);
        var i :| 0 <= i < |front| && front[i] == g;
        assert files[i] == g;
      }
    }
  }

  lemma LinkedIsInGroup(preserve: bool, files: seq<SourceFile>, contents: map<Key, Content>, copies: map<Key, Content>, tree: Tree,
                        inodeOf: map<Key, nat>, k: Key, p: Path)
    requires CopiesFit(contents, copies) && (forall f | f in files :: f.key in contents)
    requires Staged(preserve, files, contents, copies, |files|, tree, inodeOf) && k in inodeOf
    requires p in tree.paths && tree.paths[p] == inodeOf[k]
    ensures p in PathSet(GroupOf(files, k))
  {
    PathFile(preserve, files, contents, copies, tree, inodeOf, p);
    var f :| f in files && f.path == p && f.key in inodeOf && tree.paths[p] == inodeOf[f.key];
    assert f.key == k;
    GroupMembers(files, k, f);
  }

  lemma GroupIsLinked(preserve: bool, files: seq<SourceFile>, contents: map<Key, Content>, copies: map<Key, Content>, tree: Tree,
                      inodeOf: map<Key, nat>, k: Key, p: Path)
    requires CopiesFit(contents, copies) && (forall f | f in files :: f.key in contents)
    requires Staged(preserve, files, contents, copies, |files|, tree, inodeOf) && p in PathSet(GroupOf(files, k))
    ensures p in tree.paths && k in inodeOf && tree.paths[p] == inodeOf[k] && p in PathSet(files)
  {
    var f :| f in GroupOf(files, k) && f.path == p;
    GroupMembers(files, k, f);
    FileInTree(preserve, files, contents, copies, tree, inodeOf, f);
  }

  /** The paths of one backup inode are the paths of one source group. */
  lemma LinksOfGroup(preserve: bool, files: seq<SourceFile>, contents: map<Key, Content>, copies: map<Key, Content>, tree: Tree,
                     inodeOf: map<Key, nat>, next: nat, manifest: Node, k: Key)
    requires DistinctPaths(files) && MANIFEST_PATH !in PathSet(files)
    requires CopiesFit(contents, copies) && (forall f | f in files :: f.key in contents)
    requires Staged(preserve, files, contents, copies, |files|, tree, inodeOf) && k in inodeOf && inodeOf[k] < next
    ensures |LinksTo(WithManifest(tree, next, manifest), inodeOf[k])| == |GroupOf(files, k)|
  {
    hide Staged, CopiesFit;
    var final := WithManifest(tree, next, manifest);
    var group := GroupOf(files, k);
    forall p ensures p in LinksTo(final, inodeOf[k]) <==> p in PathSet(group) {
      if p in LinksTo(final, inodeOf[k]) {
        LinkedIsInGroup(preserve, files, contents, copies, tree, inodeOf, k, p);
      }
      if p in PathSet(group) {
        GroupIsLinked(preserve, files, contents, copies, tree, inodeOf, k, p);
      }
    }
    assert LinksTo(final, inodeOf[k]) == PathSet(group);
    GroupDistinct(files, k);
    PathCard(group);
  }

  function WithManifest(tree: Tree, next: nat, manifest: Node): Tree {
    Tree(tree.paths[MANIFEST_PATH := next], tree.inodes[next := manifest])
  }

  lemma FileInTree(preserve: bool, files: seq<SourceFile>, contents: map<Key, Content>, copies: map<Key, Content>, tree: Tree,
                   inodeOf: map<Key, nat>, f: SourceFile)
    requires CopiesFit(contents, copies) && (forall f | f in files :: f.key in contents) && f in files
    requires Staged(preserve, files, contents, copies, |files|, tree, inodeOf)
    ensures FileStaged(f, NodeOf(preserve, files, contents, copies, f), tree, inodeOf)
  {
  }

  lemma PathFile(preserve: bool, files: seq<SourceFile>, contents: map<Key, Content>, copies: map<Key, Content>, tree: Tree,
                 inodeOf: map<Key, nat>, p: Path)
    requires CopiesFit(contents, copies) && (forall f | f in files :: f.key in contents) && p in tree.paths
    requires Staged(preserve, files, contents, copies, |files|, tree, inodeOf)
    ensures exists f :: f in files && f.path == p && f.key in inodeOf && tree.paths[p] == inodeOf[f.key]
  {
  }

  /** What the loop leaves, in one predicate: staged files, their records, and a fresh inode for the manifest. */
  ghost predicate Built(preserve: bool, files: seq<SourceFile>, contents: map<Key, Content>, copies: map<Key, Content>, tree: Tree,
                        inodeOf: map<Key, nat>, next: nat, records: seq<FileRecord>)
    requires CopiesFit(contents, copies) && forall f | f in files :: f.key in contents
  {
    && InventoryFits(files, contents) && ManifestFree(files) && LinksClosed(files)
    && Staged(preserve, files, contents, copies, |files|, tree, inodeOf)
    && (forall n | n in tree.inodes :: n < next)
    && |records| == |files| && Recorded(preserve, files, contents, copies, records)
  }

  lemma PathsDiffer(files: seq<SourceFile>, contents: map<Key, Content>)
    requires InventoryFits(files, contents) && ManifestFree(files)
    ensures DistinctPaths(files) && MANIFEST_PATH !in PathSet(files)
  {
  }

  /** The links of one file, from its own side. */
  lemma LinksOfFile(preserve: bool, files: seq<SourceFile>, contents: map<Key, Content>, copies: map<Key, Content>, tree: Tree,
                    inodeOf: map<Key, nat>, next: nat, records: seq<FileRecord>, manifest: Node, i: nat)
    requires CopiesFit(contents, copies) && (forall f | f in files :: f.key in contents) && i < |files|
    requires Built(preserve, files, contents, copies, tree, inodeOf, next, records)
    ensures var final := WithManifest(tree, next, manifest);
      && files[i].key in inodeOf && FileStaged(files[i], NodeOf(preserve, files, contents, copies, files[i]), final, inodeOf)
      && |LinksTo(final, inodeOf[files[i].key])| == |GroupOf(files, files[i].key)| == files[i].nlink
  {
    hide CopiesFit, NodeOf, GroupOf, Recorded;
    PathsDiffer(files, contents);
    FileInTree(preserve, files, contents, copies, tree, inodeOf, files[i]);
    LinksOfGroup(preserve, files, contents, copies, tree, inodeOf, next, manifest, files[i].key);
    assert files[i] in files && files[i].path in PathSet(files);
    hide Staged, LinksTo;
  }

  lemma EntryOfFile(preserve: bool, files: seq<SourceFile>, contents: map<Key, Content>, copies: map<Key, Content>, i: nat, final: Tree,
                    inodeOf: map<Key, nat>)
    requires InventoryFits(files, contents) && ManifestFree(files) && CopiesFit(contents, copies) && i < |files|
    requires files[i].key in contents && files[i].key in inodeOf
    requires FileStaged(files[i], NodeOf(preserve, files, contents, copies, files[i]), final, inodeOf)
    requires |LinksTo(final, inodeOf[files[i].key])| == |GroupOf(files, files[i].key)|
    ensures var r := RecordOf(preserve, files, contents, copies, i);
      && EntryFits(preserve, r, final)
      && (ContentFits(preserve, r, final) <==> FileContentFits(preserve, files, contents, copies, files[i]))
  {
    var f := files[i];
    assert f in files;
    GroupMembers(files, f.key, f);
    GroupPrefix(files, i, f.key);
    GroupSoFar(files, i);
    CopiedSqlite(preserve, files, contents, copies, f.key);
    hide Copied, CopiesFit, InventoryFits, LinksTo, GroupOf;
  }

  lemma CopiedSqlite(preserve: bool, files: seq<SourceFile>, contents: map<Key, Content>, copies: map<Key, Content>, k: Key)
    requires CopiesFit(contents, copies) && k in contents
    ensures Copied(preserve, files, contents, copies, k).sqlite == contents[k].sqlite
  {
  }

  /** A file that is not the first of its group has company. */
  lemma GroupSoFar(files: seq<SourceFile>, i: nat)
    requires i < |files|
    ensures |GroupOf(files, files[i].key)| >= |GroupOf(files[..i], files[i].key)| + 1
  {
    assert files[..i + 1][..i] == files[..i];
    GroupPrefix(files, i + 1, files[i].key);
  }

  lemma RecordFacts(preserve: bool, files: seq<SourceFile>, contents: map<Key, Content>, copies: map<Key, Content>,
                    records: seq<FileRecord>, i: nat)
    requires CopiesFit(contents, copies) && (forall f | f in files :: f.key in contents)
    requires |records| == |files| && Recorded(preserve, files, contents, copies, records) && i < |files|
    ensures records[i] == RecordOf(preserve, files, contents, copies, i)
    ensures var r := records[i];
      && r.path == files[i].path && r.sourceKey == files[i].key && r.sourceNlink == files[i].nlink
      && r.group == (if |GroupOf(files, files[i].key)| > 1 then Some(files[i].key) else None)
      && (r.copyMethod == Hardlink <==> GroupOf(files[..i], files[i].key) != [])
      && r.sourceSize == files[i].size && r.size == Copied(preserve, files, contents, copies, files[i].key).size
  {
  }

  lemma MembersSnoc(records: seq<FileRecord>, k: Key, n: nat)
    requires n < |records|
    ensures var before, r := MembersOf(records[..n], k), records[n];
      && MembersOf(records[..n + 1], k) == before + (if r.group == Some(k) then [r] else [])
      && Originals(before + [r]) == Originals(before) + (if r.copyMethod == Hardlink then 0 else 1)
  {
    assert records[..n + 1][..n] == records[..n];
    var before, r := MembersOf(records[..n], k), records[n];
    assert (before + [r])[..|before|] == before;
  }

  lemma GroupSnoc(files: seq<SourceFile>, k: Key, n: nat)
    requires n < |files|
    ensures GroupOf(files[..n + 1], k) == GroupOf(files[..n], k) + (if files[n].key == k then [files[n]] else [])
  {
    assert files[..n + 1][..n] == files[..n];
  }

  predicate FromFile(files: seq<SourceFile>, records: seq<FileRecord>, k: Key, r: FileRecord, j: int)
    requires |records| == |files|
  {
    0 <= j < |files| && files[j].key == k && records[j] == r
  }

  lemma NoMembers(files: seq<SourceFile>, records: seq<FileRecord>, k: Key)
    ensures MembersOf(records[..0], k) == [] && GroupOf(files[..0], k) == [] && Originals([]) == 0
  {
  }

  /** The records of one group, prefix by prefix: as many as its files, the first of them the copy. */
  lemma {:induction false} MemberCounts(preserve: bool, files: seq<SourceFile>, contents: map<Key, Content>, copies: map<Key, Content>,
                                        records: seq<FileRecord>, k: Key, n: nat)
    requires CopiesFit(contents, copies) && (forall f | f in files :: f.key in contents)
    requires |records| == |files| && Recorded(preserve, files, contents, copies, records) && |GroupOf(files, k)| > 1 && n <= |files|
    ensures |MembersOf(records[..n], k)| == |GroupOf(files[..n], k)|
    ensures Originals(MembersOf(records[..n], k)) == (if MembersOf(records[..n], k) == [] then 0 else 1)
  {
    hide CopiesFit, Recorded, RecordOf, Copied, GroupOf, MembersOf, Originals;
    if n == 0 {
      NoMembers(files, records, k);
    } else {
      RecordFacts(preserve, files, contents, copies, records, n - 1);
      MembersSnoc(records, k, n - 1);
      GroupSnoc(files, k, n - 1);
      MemberCounts(preserve, files, contents, copies, records, k, n - 1);
      assert MembersOf(records[..n - 1], k) + [] == MembersOf(records[..n - 1], k);
    }
  }

  lemma {:induction false} MemberOrigin(preserve: bool, files: seq<SourceFile>, contents: map<Key, Content>, copies: map<Key, Content>,
                                        records: seq<FileRecord>, k: Key, n: nat, r: FileRecord) returns (j: nat)
    requires CopiesFit(contents, copies) && (forall f | f in files :: f.key in contents)
    requires |records| == |files| && Recorded(preserve, files, contents, copies, records) && n <= |files|
    requires r in MembersOf(records[..n], k)
    ensures FromFile(files, records, k, r, j)
  {
    hide CopiesFit, Recorded, RecordOf, Copied, GroupOf, Originals;
    assert n > 0;
    hide MembersOf;
    RecordFacts(preserve, files, contents, copies, records, n - 1);
    MembersSnoc(records, k, n - 1);
    if r in MembersOf(records[..n - 1], k) {
      j := MemberOrigin(preserve, files, contents, copies, records, k, n - 1, r);
    } else {
      j := n - 1;
    }
  }

  /** A member's path lies on the group's inode. */
  lemma MemberLinks(preserve: bool, files: seq<SourceFile>, contents: map<Key, Content>, copies: map<Key, Content>, tree: Tree,
                    inodeOf: map<Key, nat>, next: nat, records: seq<FileRecord>, manifest: Node, j: nat)
    requires CopiesFit(contents, copies) && (forall f | f in files :: f.key in contents) && j < |files|
    requires Built(preserve, files, contents, copies, tree, inodeOf, next, records)
    ensures var final := WithManifest(tree, next, manifest); var k := files[j].key;
      && k in inodeOf && records[j].path in final.paths && final.paths[records[j].path] == inodeOf[k]
      && records[j].sourceKey == k && records[j].sourceNlink == |GroupOf(files, k)| == |LinksTo(final, inodeOf[k])|
  {
    RecordFacts(preserve, files, contents, copies, records, j);
    LinksOfFile(preserve, files, contents, copies, tree, inodeOf, next, records, manifest, j);
    hide Built, GroupOf, LinksTo, WithManifest, RecordOf, Copied, CopiesFit, NodeOf;
  }

  lemma GroupOfRecords(preserve: bool, files: seq<SourceFile>, contents: map<Key, Content>, copies: map<Key, Content>, tree: Tree,
                       inodeOf: map<Key, nat>, next: nat, records: seq<FileRecord>, manifest: Node, i: nat)
    requires CopiesFit(contents, copies) && (forall f | f in files :: f.key in contents) && i < |files|
    requires Built(preserve, files, contents, copies, tree, inodeOf, next, records) && records[i].group.Some?
    ensures GroupFits(MembersOf(records, records[i].group.value), WithManifest(tree, next, manifest))
  {
    hide Built, GroupOf, MembersOf, LinksTo, WithManifest, RecordOf, Copied, CopiesFit, Recorded, Originals, FromFile;
    var k := files[i].key;
    var final := WithManifest(tree, next, manifest);
    BuiltRecords(preserve, files, contents, copies, tree, inodeOf, next, records);
    RecordFacts(preserve, files, contents, copies, records, i);
    MemberCounts(preserve, files, contents, copies, records, k, |files|);
    assert records[..|files|] == records && files[..|files|] == files;
    var members := MembersOf(records, k);
    MemberLinks(preserve, files, contents, copies, tree, inodeOf, next, records, manifest, i);
    forall r | r in members
      ensures r.path in final.paths && final.paths[r.path] == inodeOf[k] && r.sourceKey == k && r.sourceNlink == |members|
    {
      OneMember(preserve, files, contents, copies, tree, inodeOf, next, records, manifest, k, r);
    }
    assert members[0] in members;
  }

  lemma OneMember(preserve: bool, files: seq<SourceFile>, contents: map<Key, Content>, copies: map<Key, Content>, tree: Tree,
                  inodeOf: map<Key, nat>, next: nat, records: seq<FileRecord>, manifest: Node, k: Key, r: FileRecord)
    requires CopiesFit(contents, copies) && (forall f | f in files :: f.key in contents)
    requires Built(preserve, files, contents, copies, tree, inodeOf, next, records) && r in MembersOf(records, k)
    ensures var final := WithManifest(tree, next, manifest);
      && k in inodeOf && r.path in final.paths && final.paths[r.path] == inodeOf[k] && r.sourceKey == k && r.sourceNlink == |GroupOf(files, k)|
  {
    hide Built, GroupOf, LinksTo, WithManifest, RecordOf, Copied, CopiesFit, Recorded, MembersOf;
    BuiltRecords(preserve, files, contents, copies, tree, inodeOf, next, records);
    assert records[..|files|] == records;
    var j := MemberOrigin(preserve, files, contents, copies, records, k, |files|, r);
    MemberLinks(preserve, files, contents, copies, tree, inodeOf, next, records, manifest, j);
  }

  lemma BuiltRecords(preserve: bool, files: seq<SourceFile>, contents: map<Key, Content>, copies: map<Key, Content>, tree: Tree,
                     inodeOf: map<Key, nat>, next: nat, records: seq<FileRecord>)
    requires CopiesFit(contents, copies) && (forall f | f in files :: f.key in contents)
    requires Built(preserve, files, contents, copies, tree, inodeOf, next, records)
    ensures |records| == |files| && Recorded(preserve, files, contents, copies, records)
  {
  }

  lemma {:induction false} RenamedSum<K, L>(keys: seq<K>, others: seq<L>, sizes: seq<nat>)
    requires |keys| == |others| == |sizes|
    requires forall i, j | 0 <= i < |keys| && 0 <= j < |keys| :: keys[i] == keys[j] <==> others[i] == others[j]
    ensures UniqueSum(keys, sizes) == UniqueSum(others, sizes)
  {
    if keys != [] {
      var n := |keys| - 1;
      RenamedSum(keys[..n], others[..n], sizes[..n]);
      assert keys[n] in keys[..n] <==> others[n] in others[..n] by {
        if keys[n] in keys[..n] {
          var i :| 0 <= i < n && keys[i] == keys[n];
          assert others[i] == others[n];
        }
        if others[n] in others[..n] {
          var i :| 0 <= i < n && others[i] == others[n];
          assert keys[i] == keys[n];
        }
      }
    }
  }

  /** Records and files correspond one to one. */
  predicate Matches(files: seq<SourceFile>, records: seq<FileRecord>) {
    && |records| == |files|
    && forall i | 0 <= i < |files| ::
         records[i].path == files[i].path && records[i].sourceKey == files[i].key && records[i].sourceSize == files[i].size
  }

  lemma RecordedMatches(preserve: bool, files: seq<SourceFile>, contents: map<Key, Content>, copies: map<Key, Content>, records: seq<FileRecord>)
    requires CopiesFit(contents, copies) && (forall f | f in files :: f.key in contents)
    requires |records| == |files| && Recorded(preserve, files, contents, copies, records)
    ensures Matches(files, records)
  {
  }

  lemma MatchedPaths(files: seq<SourceFile>, records: seq<FileRecord>)
    requires Matches(files, records) && DistinctPaths(files)
    ensures RecordPaths(records) == PathSet(files) && DistinctRecords(records)
  {
  }

  lemma MatchedSums(files: seq<SourceFile>, records: seq<FileRecord>, tree: Tree)
    requires Matches(files, records) && SharesExactly(files, tree)
    requires forall r | r in records :: r.path in tree.paths
    ensures |KeysOf(files)| == |BackupSizes(records)| == |files|
    ensures UniqueSum(BackupKeys(records, tree), BackupSizes(records)) == UniqueSum(KeysOf(files), BackupSizes(records))
    ensures SourceKeys(records) == KeysOf(files) && SourceSizes(records) == SizesOf(files)
  {
    hide UniqueSum;
    forall i, j | 0 <= i < |files| && 0 <= j < |files|
      ensures KeysOf(files)[i] == KeysOf(files)[j] <==> BackupKeys(records, tree)[i] == BackupKeys(records, tree)[j]
    {
      assert files[i] in files && files[j] in files;
    }
    RenamedSum(KeysOf(files), BackupKeys(records, tree), BackupSizes(records));
  }

  lemma SharesFromStage(preserve: bool, files: seq<SourceFile>, contents: map<Key, Content>, copies: map<Key, Content>, tree: Tree,
                        inodeOf: map<Key, nat>, next: nat, records: seq<FileRecord>, manifest: Node)
    requires CopiesFit(contents, copies) && (forall f | f in files :: f.key in contents)
    requires Built(preserve, files, contents, copies, tree, inodeOf, next, records)
    ensures SharesExactly(files, WithManifest(tree, next, manifest))
  {
    hide Copied, CopiesFit, NodeOf, LinksTo, GroupOf, Recorded, InventoryFits, LinksClosed, FilesStaged, WithManifest;
    var final := WithManifest(tree, next, manifest);
    assert Injective(inodeOf, tree);
    hide Built, Staged;
    forall f | f in files ensures f.key in inodeOf && f.path in final.paths && final.paths[f.path] == inodeOf[f.key] {
      var i :| 0 <= i < |files| && files[i] == f;
      LinksOfFile(preserve, files, contents, copies, tree, inodeOf, next, records, manifest, i);
    }
  }

  /** One record, all its checks. */
  lemma RecordChecks(preserve: bool, files: seq<SourceFile>, contents: map<Key, Content>, copies: map<Key, Content>, tree: Tree,
                     inodeOf: map<Key, nat>, next: nat, records: seq<FileRecord>, manifest: Node, i: nat)
    requires CopiesFit(contents, copies) && (forall f | f in files :: f.key in contents) && i < |files|
    requires Built(preserve, files, contents, copies, tree, inodeOf, next, records) && |records| == |files|
    ensures var final := WithManifest(tree, next, manifest);
      && EntryFits(preserve, records[i], final)
      && (ContentFits(preserve, records[i], final) <==> FileContentFits(preserve, files, contents, copies, files[i]))
      && (records[i].group.Some? ==> GroupFits(MembersOf(records, records[i].group.value), final))
  {
    hide Copied, CopiesFit, NodeOf, LinksTo, GroupOf, Recorded, RecordOf, InventoryFits, LinksClosed, Staged, WithManifest, EntryFits,
         ContentFits, FileContentFits, GroupFits, MembersOf, FileStaged;
    assert InventoryFits(files, contents) && ManifestFree(files) && Recorded(preserve, files, contents, copies, records);
    hide Built;
    RecordFacts(preserve, files, contents, copies, records, i);
    LinksOfFile(preserve, files, contents, copies, tree, inodeOf, next, records, manifest, i);
    assert files[i] in files;
    EntryOfFile(preserve, files, contents, copies, i, WithManifest(tree, next, manifest), inodeOf);
    if records[i].group.Some? {
      GroupOfRecords(preserve, files, contents, copies, tree, inodeOf, next, records, manifest, i);
    }
  }

  lemma BuiltPaths(preserve: bool, files: seq<SourceFile>, contents: map<Key, Content>, copies: map<Key, Content>, tree: Tree,
                   inodeOf: map<Key, nat>, next: nat, records: seq<FileRecord>, manifest: Node)
    requires CopiesFit(contents, copies) && (forall f | f in files :: f.key in contents)
    requires Built(preserve, files, contents, copies, tree, inodeOf, next, records)
    ensures var final := WithManifest(tree, next, manifest);
      && DistinctRecords(records) && Matches(files, records) && final.paths.Keys == RecordPaths(records) + {MANIFEST_PATH}
      && final.paths[MANIFEST_PATH] == next && next in final.inodes && final.inodes[next] == manifest
  {
    hide Copied, CopiesFit, NodeOf, LinksTo, GroupOf, Recorded, LinksClosed, FilesStaged, PathSet, RecordPaths, DistinctRecords, Matches;
    assert files[..|files|] == files;
    PathsDiffer(files, contents);
    RecordedMatches(preserve, files, contents, copies, records);
    MatchedPaths(files, records);
    assert tree.paths.Keys == PathSet(files);
  }

  /** A built backup passes every check but those on contents, and those as the inputs decide. */
  lemma BuiltVerifies(preserve: bool, files: seq<SourceFile>, contents: map<Key, Content>, copies: map<Key, Content>, tree: Tree,
                      inodeOf: map<Key, nat>, next: nat, records: seq<FileRecord>, manifest: Node, sourceBytes: nat, backupBytes: nat)
    requires CopiesFit(contents, copies) && (forall f | f in files :: f.key in contents)
    requires Built(preserve, files, contents, copies, tree, inodeOf, next, records) && manifest.mode == 0x180
    requires sourceBytes == UniqueSum(KeysOf(files), SizesOf(files))
    requires |BackupSizes(records)| == |KeysOf(files)| && backupBytes == UniqueSum(KeysOf(files), BackupSizes(records))
    ensures var m, final := Manifest(records, |records|, sourceBytes, backupBytes, preserve), WithManifest(tree, next, manifest);
      Consistent(m, final) && (FilesVerify(m, final) <==> ContentsVerify(preserve, files, contents, copies))
  {
    hide Built, Copied, CopiesFit, NodeOf, LinksTo, GroupOf, InventoryFits, EntryFits, ContentFits, GroupFits, MembersOf,
         FileContentFits, KeysOf, SizesOf, BackupSizes, BackupKeys, SourceKeys, SourceSizes, UniqueSum, WithManifest, Matches,
         SharesExactly, DistinctRecords, RecordPaths;
    var final := WithManifest(tree, next, manifest);
    BuiltPaths(preserve, files, contents, copies, tree, inodeOf, next, records, manifest);
    MatchedLength(files, records);
    forall i | 0 <= i < |records|
      ensures EntryFits(preserve, records[i], final)
      ensures ContentFits(preserve, records[i], final) <==> FileContentFits(preserve, files, contents, copies, files[i])
      ensures records[i].group.Some? ==> GroupFits(MembersOf(records, records[i].group.value), final)
    {
      RecordChecks(preserve, files, contents, copies, tree, inodeOf, next, records, manifest, i);
    }
    RecordsInPaths(records, final);
    SharesFromStage(preserve, files, contents, copies, tree, inodeOf, next, records, manifest);
    MatchedSums(files, records, final);
    assert Consistent(Manifest(records, |records|, sourceBytes, backupBytes, preserve), final);
    hide Consistent;
    ContentsCarryOver(preserve, files, contents, copies, records, final);
  }

  lemma MatchedLength(files: seq<SourceFile>, records: seq<FileRecord>)
    requires Matches(files, records)
    ensures |records| == |files|
  {
  }

  lemma RecordsInPaths(records: seq<FileRecord>, tree: Tree)
    requires tree.paths.Keys == RecordPaths(records) + {MANIFEST_PATH}
    ensures forall r | r in records :: r.path in tree.paths
  {
  }

  lemma ContentsCarryOver(preserve: bool, files: seq<SourceFile>, contents: map<Key, Content>, copies: map<Key, Content>,
                          records: seq<FileRecord>, tree: Tree)
    requires CopiesFit(contents, copies) && (forall f | f in files :: f.key in contents) && |records| == |files|
    requires forall i | 0 <= i < |records| ::
      ContentFits(preserve, records[i], tree) <==> FileContentFits(preserve, files, contents, copies, files[i])
    ensures (forall r | r in records :: ContentFits(preserve, r, tree)) <==> ContentsVerify(preserve, files, contents, copies)
  {
  }

  datatype Backup = Backup(manifest: Manifest, directoryRecords: seq<SourceDirectory>, tree: Tree, directories: Directories)

  /** verify_backup succeeds. */
  predicate Verifies(b: Backup) {
    FilesVerify(b.manifest, b.tree) && DirectoriesVerify(b.directoryRecords, b.directories)
  }

  /** capacity_plan, up to the free space: links must close and must not cross history, then every inode counts once. */
  method CapacityPlan(files: seq<SourceFile>, ghost contents: map<Key, Content>, preserve: bool) returns (ok: bool, bytes: nat)
    requires InventoryFits(files, contents)
    ensures ok <==> LinksClosed(files) && HistoryUncrossed(preserve, files)
    ensures ok ==> bytes == UniqueSum(KeysOf(files), SizesOf(files))
  {
    hide InventoryFits, LinksClosed, KeysOf, SizesOf, UniqueSum;
    bytes := 0;
    if preserve {
      var groups: map<Key, seq<SourceFile>>;
      ok, groups := HardlinkGroups(files);
      if !ok {
        return;
      }
      ok := Uncrossed(files, groups);
      if !ok {
        return;
      }
    }
    ok, bytes := UniqueBytes(files, contents);
  }

  /** The loop over the groups: the kinds of path in one group are all historical or all current. */
  method Uncrossed(files: seq<SourceFile>, groups: map<Key, seq<SourceFile>>) returns (ok: bool)
    requires forall k :: if k in groups then groups[k] == GroupOf(files, k) != [] else GroupOf(files, k) == []
    ensures ok <==> HistoryUncrossed(true, files)
  {
    hide GroupOf, IsHistory;
    var todo := groups.Keys;
    while todo != {}
      invariant todo <= groups.Keys
      invariant forall k, f, g | k in groups.Keys - todo && f in groups[k] && g in groups[k] :: IsHistory(f.path) == IsHistory(g.path)
      decreases |todo|
    {
      var k :| k in todo;
      todo := todo - {k};
      if exists i, j :: 0 <= i < |groups[k]| && 0 <= j < |groups[k]| && IsHistory(groups[k][i].path) != IsHistory(groups[k][j].path) {
        var i, j :| 0 <= i < |groups[k]| && 0 <= j < |groups[k]| && IsHistory(groups[k][i].path) != IsHistory(groups[k][j].path);
        GroupMembers(files, k, groups[k][i]);
        GroupMembers(files, k, groups[k][j]);
        return false;
      }
    }
    forall f, g | f in files && g in files && f.key == g.key ensures IsHistory(f.path) == IsHistory(g.path) {
      GroupMembers(files, f.key, f);
      GroupMembers(files, f.key, g);
      assert f.key in groups;
    }
    ok := true;
  }

  /** create_backup for a planned inventory: directories, copies and links, totals, manifest, directory metadata; it fails
      or leaves a backup that verifies. */
  method CreateBackup(files: seq<SourceFile>, directories: seq<SourceDirectory>, contents: map<Key, Content>, copies: map<Key, Content>,
                      preserve: bool, plannedBytes: nat, manifestContent: Content)
    returns (backup: Option<Backup>)
    requires InventoryFits(files, contents) && ManifestFree(files) && DirectoriesFit(directories, files)
    requires CopiesFit(contents, copies) && forall f | f in files :: f.key in contents
    requires HistoryUncrossed(preserve, files) && plannedBytes == UniqueSum(KeysOf(files), SizesOf(files))
    ensures backup.Some? ==> LinksClosed(files) && SharesExactly(files, backup.value.tree) && backup.value.directoryRecords == directories
    ensures backup.Some? ==> Verifies(backup.value)
  {
    hide InventoryFits, ManifestFree, CopiesFit, Copied, Staged, Recorded, GroupOf, Consistent, FilesVerify, ContentsVerify, SharesExactly,
         LinksClosed, DirectoriesFit, DirectoryPaths, Open, HistoryUncrossed, HistorySeparate;
    backup := None;
    var ok, groups := HardlinkGroups(files);
    if !ok {
      return;
    }
    var made := MakeDirectories(directories, files);
    var tree, next, sizeOf, records; ghost var inodeOf;
    ok, tree, next, inodeOf, sizeOf, records, made := StageFiles(files, groups, contents, copies, preserve, directories, made);
    if !ok {
      return;
    }
    SizesSum(preserve, files, contents, copies, tree, inodeOf, records, sizeOf);
    var backupBytes := SumValues(sizeOf, KeysOf(files), BackupSizes(records));
    var manifest := Node(manifestContent, 0x180, 0);
    RootHolds(directories, files);
    made := CreateEntry(made, directories, MANIFEST_PATH);
    var final := Tree(tree.paths[MANIFEST_PATH := next], tree.inodes[next := manifest]);
    made := ApplyDirectoryMetadata(directories, files, made);
    BuiltVerifies(preserve, files, contents, copies, tree, inodeOf, next, records, manifest, plannedBytes, backupBytes);
    SharesFromStage(preserve, files, contents, copies, tree, inodeOf, next, records, manifest);
    GuardSeparatesHistory(preserve, files, contents);
    ContentsVerifyIff(preserve, files, contents);
    assert ContentsVerify(preserve, files, contents, copies);
    DirectoriesAreChecked(directories, files, made);
    backup := Some(Backup(Manifest(records, |records|, plannedBytes, backupBytes, preserve), directories, final, made));
  }

  lemma RootHolds(directories: seq<SourceDirectory>, files: seq<SourceFile>)
    requires DirectoriesFit(directories, files)
    ensures Parent(MANIFEST_PATH) in DirectoryPaths(directories)
  {
    assert Parent(MANIFEST_PATH) == [];
  }

  lemma DirectoriesAreChecked(directories: seq<SourceDirectory>, files: seq<SourceFile>, t: Directories)
    requires DirectoriesFit(directories, files) && t.Keys == DirectoryPaths(directories)
    requires forall d | d in directories :: t[d.path] == Meta(d.mode, d.mtime)
    ensures DirectoriesVerify(directories, t)
  {
  }

  /** The whole command over a quiet source: the manifest's name must be free, the plan must accept and find room, and
      what is then created verifies. */
  method RunBackup(files: seq<SourceFile>, directories: seq<SourceDirectory>, contents: map<Key, Content>, copies: map<Key, Content>,
                   preserve: bool, manifestContent: Content)
    returns (backup: Option<Backup>)
    requires InventoryFits(files, contents) && DirectoriesFit(directories, files)
    requires CopiesFit(contents, copies) && forall f | f in files :: f.key in contents
    ensures backup.Some? ==> LinksClosed(files) && HistoryUncrossed(preserve, files)
    ensures backup.Some? ==> SharesExactly(files, backup.value.tree) && Verifies(backup.value)
  {
    hide InventoryFits, CopiesFit, GroupOf, SharesExactly, LinksClosed, DirectoriesFit, HistoryUncrossed, Verifies;
    backup := None;
    if !(forall i | 0 <= i < |files| :: files[i].path != MANIFEST_PATH) || exists i :: 0 <= i < |directories| && directories[i].path == MANIFEST_PATH {
      return;
    }
    var ok, bytes := CapacityPlan(files, contents, preserve);
    var enough: bool := *;
    if ok && enough {
      backup := CreateBackup(files, directories, contents, copies, preserve, bytes, manifestContent);
    }
  }

  lemma SizesSum(preserve: bool, files: seq<SourceFile>, contents: map<Key, Content>, copies: map<Key, Content>, tree: Tree,
                 inodeOf: map<Key, nat>, records: seq<FileRecord>, sizeOf: map<Key, nat>)
    requires CopiesFit(contents, copies) && (forall f | f in files :: f.key in contents)
    requires Staged(preserve, files, contents, copies, |files|, tree, inodeOf) && sizeOf.Keys == inodeOf.Keys
    requires |records| == |files| && Recorded(preserve, files, contents, copies, records)
    requires forall k | k in sizeOf :: k in contents && sizeOf[k] == Copied(preserve, files, contents, copies, k).size
    ensures |KeysOf(files)| == |BackupSizes(records)| && forall k :: k in sizeOf <==> k in KeysOf(files)
    ensures forall i | 0 <= i < |KeysOf(files)| :: KeysOf(files)[i] in sizeOf && sizeOf[KeysOf(files)[i]] == BackupSizes(records)[i]
  {
    assert files[..|files|] == files;
    hide Copied, CopiesFit, FilesStaged, Recorded, RecordOf, Injective;
    forall k ensures k in sizeOf <==> k in KeysOf(files) {
      GroupsAndKeys(files, k);
      GroupKeys(files, k);
    }
    forall i | 0 <= i < |files| ensures sizeOf[KeysOf(files)[i]] == BackupSizes(records)[i] {
      RecordFacts(preserve, files, contents, copies, records, i);
    }
  }
}
