/** EvidenceReader (cval/storage/verification.py): bounded reads of files that others may replace at any time, and the
    final check that makes everything read one snapshot. */
module EvidenceReader {
  import opened Journal
  import opened Wrappers

  type Path = string

  /** identity stands for device, inode, size and both times. */
  datatype File = File(identity: nat, regular: bool, links: nat, content: string)

  type Disk = map<Path, File>

  /** What the reader remembers of a file; the content stands for its digest. */
  datatype Seen = Seen(identity: nat, content: string)

  /** Identities that paths have shown and lost. A changed file never shows an earlier identity again. */
  type Departed = set<(Path, nat)>

  predicate NoReturn(disk: Disk, departed: Departed) {
    forall p | p in disk :: (p, disk[p].identity) !in departed
  }

  /** Anything others may do: every file stays as it is, or its identity is gone for good. */
  predicate Later(before: Disk, gone: Departed, now: Disk, departed: Departed) {
    && gone <= departed && NoReturn(now, departed)
    && forall p | p in before :: (p in now && now[p] == before[p]) || (p, before[p].identity) in departed
  }

  lemma LaterTransitive(a: Disk, da: Departed, b: Disk, db: Departed, c: Disk, dc: Departed)
    requires Later(a, da, b, db) && Later(b, db, c, dc)
    ensures Later(a, da, c, dc)
  {
  }

  /** The file at p is the one that was read. */
  predicate Stands(disk: Disk, p: Path, seen: Seen) {
    p in disk && disk[p].identity == seen.identity && disk[p].content == seen.content && disk[p].regular && disk[p].links == 1
  }

  /** What is remembered is on the disk, or gone for good. */
  predicate Remembered(disk: Disk, departed: Departed, files: map<Path, Seen>) {
    forall p | p in files :: Stands(disk, p, files[p]) || (p, files[p].identity) in departed
  }

  /** A remembered identity that is still shown vouches for the content, now and at every earlier moment since. */
  lemma IdentityVouches(disk: Disk, departed: Departed, now: Disk, departedNow: Departed, files: map<Path, Seen>, p: Path)
    requires NoReturn(disk, departed) && Remembered(disk, departed, files) && Later(disk, departed, now, departedNow)
    requires p in files && p in now && now[p].identity == files[p].identity
    ensures Stands(disk, p, files[p]) && Stands(now, p, files[p])
  {
    assert (p, now[p].identity) !in departedNow;
  }

  class Reader {
    const maxFiles: nat
    const maxBytes: nat
    var files: map<Path, Seen>
    var bytesRead: nat
    var disk: Disk
    var departed: Departed

    constructor (disk: Disk, maxFiles: nat, maxBytes: nat)
      ensures Valid() && fresh(this) && files == map[] && bytesRead == 0 && this.disk == disk && departed == {}
      ensures this.maxFiles == maxFiles && this.maxBytes == maxBytes
    {
      this.disk, this.maxFiles, this.maxBytes := disk, maxFiles, maxBytes;
      files, bytesRead, departed := map[], 0, {};
    }

    ghost predicate Valid()
      reads this
    {
      && bytesRead <= maxBytes && |files| <= maxFiles
      && NoReturn(disk, departed) && Remembered(disk, departed, files)
    }

    method Interfere()
      requires Valid()
      modifies this`disk, this`departed
      ensures Valid() && Later(old(disk), old(departed), disk, departed)
    {
      var next: Disk, gone: Departed := *, *;
      if Later(disk, departed, next, gone) {
        disk, departed := next, gone;
      }
    }

    /** One read. The deadline may pass at any time, the path may lead through a symbolic link or be closed to the
        reader, and the open file may change while it is read. */
    method Read(path: Path) returns (r: Result<string, SourceState>)
      requires Valid()
      modifies this
      ensures Valid() && Later(old(disk), old(departed), disk, departed)
      ensures r.Failure? ==> files == old(files) && bytesRead == old(bytesRead)
      ensures r.Success? ==> path in files && files == old(files)[path := files[path]] && r.value == files[path].content
      ensures r.Success? ==> bytesRead == old(bytesRead) + |r.value|
      ensures r.Success? && path in old(files) ==> files == old(files)
    {
      var late: bool, linked: bool, closed: bool, torn: bool := *, *, *, *;
      Interfere();
      if late {
        return Failure(SourceUnavailable);
      }
      if linked {
        return Failure(SourceConflicting);
      }
      if path !in disk {
        return Failure(SourceIncomplete);
      }
      if closed {
        return Failure(SourceForbidden);
      }
      var before := disk[path];
      if path in files && files[path].identity != before.identity {
        return Failure(SourceUnavailable);
      }
      if !before.regular || before.links != 1 {
        return Failure(SourceConflicting);
      }
      if path !in files && |files| >= maxFiles {
        return Failure(SourceUnavailable);
      }
      if |before.content| > maxBytes - bytesRead {
        return Failure(SourceUnavailable);
      }
      label Opened:
      Interfere();
      if torn {
        return Failure(SourceUnavailable);
      }
      LaterTransitive(old(disk), old(departed), old@Opened(disk), old@Opened(departed), disk, departed);
      bytesRead := bytesRead + |before.content|;
      files := files[path := Seen(before.identity, before.content)];
      r := Success(before.content);
    }

    /** unchanged: every file read still shows its identity, checked one after the other while others go on. When all
        of them do, everything read was on the disk together at the moment the check began. */
    method Unchanged() returns (ok: bool)
      requires Valid()
      modifies this`disk, this`departed
      ensures Valid() && Later(old(disk), old(departed), disk, departed)
      ensures ok ==> forall p | p in files :: Stands(old(disk), p, files[p])
    {
      var todo := files.Keys;
      assert Later(disk, departed, disk, departed);
      while todo != {}
        invariant todo <= files.Keys && files == old(files)
        invariant Valid() && Later(old(disk), old(departed), disk, departed)
        invariant forall p | p in files && p !in todo :: Stands(old(disk), p, files[p])
        decreases |todo|
      {
        var p :| p in todo;
        label Before:
        Interfere();
        LaterTransitive(old(disk), old(departed), old@Before(disk), old@Before(departed), disk, departed);
        var late: bool, linked: bool := *, *;
        if late || linked || p !in disk || disk[p].identity != files[p].identity {
          return false;
        }
        IdentityVouches(old(disk), old(departed), disk, departed, files, p);
        todo := todo - {p};
      }
      ok := true;
    }
  }

  /** Reading a list of files and then checking them: on success all contents stood together on one disk, at a moment
      between the first read and the return, and the bounds were kept. */
  method ReadTogether(reader: Reader, paths: seq<Path>) returns (contents: Option<seq<string>>, ghost moment: Disk, ghost gone: Departed)
    requires reader.Valid()
    modifies reader
    ensures reader.Valid() && Later(old(reader.disk), old(reader.departed), moment, gone)
    ensures Later(moment, gone, reader.disk, reader.departed)
    ensures contents.Some? ==> |contents.value| == |paths|
    ensures contents.Some? ==> forall k | 0 <= k < |paths| ::
              paths[k] in moment && moment[paths[k]].regular && moment[paths[k]].links == 1 && contents.value[k] == moment[paths[k]].content
  {
    var read := [];
    assert Later(reader.disk, reader.departed, reader.disk, reader.departed);
    for k := 0 to |paths|
      invariant reader.Valid() && Later(old(reader.disk), old(reader.departed), reader.disk, reader.departed)
      invariant |read| == k && forall j | 0 <= j < k :: paths[j] in reader.files && reader.files[paths[j]].content == read[j]
    {
      label Before:
      var r := reader.Read(paths[k]);
      LaterTransitive(old(reader.disk), old(reader.departed), old@Before(reader.disk), old@Before(reader.departed), reader.disk, reader.departed);
      if r.Failure? {
        moment, gone := reader.disk, reader.departed;
        assert Later(moment, gone, reader.disk, reader.departed);
        return None, moment, gone;
      }
      read := read + [r.value];
    }
    moment, gone := reader.disk, reader.departed;
    var ok := reader.Unchanged();
    contents := if ok then Some(read) else None;
  }
}
