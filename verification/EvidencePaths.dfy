/** Root-relative paths, file trees and the retired-to-current evidence relocations
    (cval/storage/paths.py). A tree is the finite map from every existing path to its node. */
module EvidencePaths {
  import opened Wrappers

  type Path = seq<string>

  datatype Meta = Meta(mode: nat, uid: nat, gid: nat, mtime: int)

  datatype Node =
    | File(inode: nat, meta: Meta, content: string)
    | Dir(inode: nat, meta: Meta)

  type Tree = map<Path, Node>

  /** The root is a directory and every other entry lives in an existing directory. */
  ghost predicate WellFormed(t: Tree) {
    && [] in t && t[[]].Dir?
    && forall p | p in t && p != [] :: Parent(p) in t && t[Parent(p)].Dir?
  }

  function Parent(p: Path): Path
    requires p != []
  {
    p[..|p| - 1]
  }

  /** EVIDENCE_RELOCATIONS, in declaration order. */
  const SOURCE_ROOTS: seq<string> := ["archive", "dltest", "nccl", "storage", "results", "validation_tests"]

  function Relocation(name: string): Option<Path> {
    if name == "archive" then Some(["archives"])
    else if name == "dltest" then Some(["logs", "dltest"])
    else if name == "nccl" then Some(["logs", "nccl"])
    else if name == "storage" then Some(["logs", "storage"])
    else if name == "results" then Some(["logs", "results"])
    else if name == "validation_tests" then Some(["logs", "validation_tests"])
    else None
  }

  predicate UnderSourceRoot(p: Path) {
    p != [] && Relocation(p[0]).Some?
  }

  function Relocated(p: Path): Path
    requires UnderSourceRoot(p)
  {
    Relocation(p[0]).value + p[1..]
  }

  /** The retired path that relocates to p, if there is one. */
  function Origin(p: Path): Option<Path> {
    if p == [] then None
    else if p[0] == "archives" then Some(["archive"] + p[1..])
    else if p[0] == "logs" && |p| > 1 && p[1] != "archive" && Relocation(p[1]).Some? then Some(p[1..])
    else None
  }

  lemma OriginInvertsRelocated(p: Path, q: Path)
    ensures UnderSourceRoot(q) && Relocated(q) == p <==> Origin(p) == Some(q)
  {
    if UnderSourceRoot(q) && Relocated(q) == p {
      if q[0] == "archive" {
        assert p[0] == "archives" && p[1..] == q[1..];
        assert q == ["archive"] + q[1..];
      } else {
        assert Relocated(q) == ["logs", q[0]] + q[1..];
        assert p[0] == "logs" && p[1] == q[0];
        assert p[1..] == q;
      }
    }
    if Origin(p) == Some(q) {
      if p[0] == "archives" {
        assert p == ["archives"] + p[1..];
        assert q[1..] == p[1..];
      } else {
        assert q[0] == p[1];
        assert Relocation(q[0]).value == ["logs", q[0]];
        assert p == ["logs", p[1]] + p[2..];
        assert q[1..] == p[2..];
      }
    }
  }

  lemma RelocatedExtends(p: Path, x: Path)
    requires UnderSourceRoot(p)
    ensures UnderSourceRoot(p + x) && Relocated(p + x) == Relocated(p) + x
  {
  }

  /** Relocation keeps nesting in both directions: it moves whole subtrees without overlap. */
  lemma RelocatedPreservesNesting(a: Path, b: Path)
    requires UnderSourceRoot(a) && UnderSourceRoot(b)
    ensures a <= b <==> Relocated(a) <= Relocated(b)
  {
    if a <= b {
      assert b == a + b[|a|..];
      RelocatedExtends(a, b[|a|..]);
    }
    if Relocated(a) <= Relocated(b) {
      var x := Relocated(b)[|Relocated(a)|..];
      assert Relocated(b) == Relocated(a) + x;
      RelocatedExtends(a, x);
      OriginInvertsRelocated(Relocated(b), b);
      OriginInvertsRelocated(Relocated(b), a + x);
      assert b == a + x;
    }
  }

  lemma DestinationsAreNotSources(p: Path)
    requires UnderSourceRoot(p)
    ensures Relocated(p) != [] && !UnderSourceRoot(Relocated(p))
  {
  }

  datatype LookupError = NotCanonical | DoesNotExist | NotADirectory | NotARegularFile

  /** safe_existing_evidence_path on a tree without symbolic links: an exact path, or its
      relocated form when the retired path is gone. */
  function SafeExistingEvidence(t: Tree, path: Path, expected: Path, expectDirectory: bool, allowMissing: bool, allowRelocated: bool): Result<Path, LookupError>
    decreases allowRelocated
  {
    if path != expected then Failure(NotCanonical)
    else if path !in t then
      if allowRelocated && UnderSourceRoot(path) && Relocated(path) in t then
        SafeExistingEvidence(t, Relocated(path), Relocated(path), expectDirectory, false, false)
      else if allowMissing then Success(path)
      else Failure(DoesNotExist)
    else if expectDirectory && !t[path].Dir? then Failure(NotADirectory)
    else if !expectDirectory && !t[path].File? then Failure(NotARegularFile)
    else Success(path)
  }
}
