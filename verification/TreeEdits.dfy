/** The durable file-tree edits used by the layout tool, and how each one changes the subtree
    hanging below a given path. */
module TreeEdits {
  import opened EvidencePaths

  predicate Nested(a: Path, b: Path) {
    a <= b || b <= a
  }

  /** The subtree at p, keyed by the path below p; empty when p does not exist. This is what a
      fingerprint records: content and identity of the entry and of everything below it. */
  function Sub(t: Tree, p: Path): (s: Tree)
    ensures forall x :: x in s <==> p + x in t
    ensures forall x | x in s :: s[x] == t[p + x]
  {
    var keys := set q | q in t && p <= q :: q[|p|..];
    assert forall x :: x in keys <==> p + x in t by {
      forall x | p + x in t ensures x in keys {
        assert p <= p + x && (p + x)[|p|..] == x;
      }
      forall x | x in keys ensures p + x in t {
        var q :| q in t && p <= q && q[|p|..] == x;
        assert q == p + x;
      }
    }
    map x | x in keys :: t[p + x]
  }

  function Detach(t: Tree, p: Path): Tree {
    map q | q in t && !(p <= q) :: t[q]
  }

  function Attach(t: Tree, p: Path, s: Tree): (r: Tree)
    ensures forall q :: q in r <==> (p <= q && q[|p|..] in s) || (!(p <= q && q[|p|..] in s) && q in t)
    ensures forall q | q in r :: r[q] == if p <= q && q[|p|..] in s then s[q[|p|..]] else t[q]
  {
    var keys := set x | x in s :: p + x;
    assert forall q :: q in keys <==> p <= q && q[|p|..] in s by {
      forall q | p <= q && q[|p|..] in s ensures q in keys {
        assert q == p + q[|p|..];
      }
      forall q | q in keys ensures p <= q && q[|p|..] in s {
        var x :| x in s && q == p + x;
        assert q[|p|..] == x;
      }
    }
    t + map q | q in keys :: s[q[|p|..]]
  }

  /** Adding or removing an entry stamps the directory that holds it. */
  function Touch(t: Tree, d: Path, now: int): Tree {
    if d in t && t[d].Dir? then t[d := t[d].(meta := t[d].meta.(mtime := now))] else t
  }

  lemma SubAt(t: Tree, p: Path, q: Path)
    requires p <= q
    ensures q in t <==> q[|p|..] in Sub(t, p)
    ensures q in t ==> t[q] == Sub(t, p)[q[|p|..]]
  {
    assert q == p + q[|p|..];
  }

  lemma PrefixesOfOnePathNest(a: Path, b: Path, q: Path)
    requires a <= q && b <= q
    ensures Nested(a, b)
  {
  }

  lemma SubOfDetached(t: Tree, p: Path, r: Path)
    ensures p <= r ==> Sub(Detach(t, p), r) == map[]
    ensures !Nested(p, r) ==> Sub(Detach(t, p), r) == Sub(t, r)
  {
  }

  lemma AttachedAt(t: Tree, p: Path, s: Tree, x: Path)
    ensures x in s ==> p + x in Attach(t, p, s) && Attach(t, p, s)[p + x] == s[x]
    ensures x !in s ==> (p + x in Attach(t, p, s) <==> p + x in t)
  {
  }

  lemma SubOfAttached(t: Tree, p: Path, s: Tree)
    requires Sub(t, p) == map[]
    ensures Sub(Attach(t, p, s), p) == s
  {
    var b := Sub(Attach(t, p, s), p);
    forall x ensures x in b <==> x in s {
      AttachedAt(t, p, s, x);
      assert x !in Sub(t, p);
    }
    forall x | x in s ensures b[x] == s[x] {
      AttachedAt(t, p, s, x);
    }
  }

  lemma SubBesideAttached(t: Tree, p: Path, s: Tree, r: Path)
    requires !Nested(p, r)
    ensures Sub(Attach(t, p, s), r) == Sub(t, r)
  {
  }

  lemma SubOfTouched(t: Tree, d: Path, now: int, r: Path)
    requires !(r <= d)
    ensures Sub(Touch(t, d, now), r) == Sub(t, r)
  {
  }

  /** b is a, or the same directory with another modification time. */
  predicate Restamped(a: Node, b: Node) {
    b == a || (a.Dir? && b == a.(meta := a.meta.(mtime := b.meta.mtime)))
  }

  lemma SubBesideEntry(t: Tree, p: Path, n: Node, r: Path)
    requires !(r <= p)
    ensures Sub(t[p := n], r) == Sub(t, r) && Sub(t - {p}, r) == Sub(t, r)
  {
  }

  /** rename(2) of a whole subtree; both holding directories are stamped. */
  function Renamed(t: Tree, source: Path, destination: Path, now: int): Tree
    requires source != [] && destination != []
  {
    Touch(Touch(Attach(Detach(t, source), destination, Sub(t, source)), Parent(source), now), Parent(destination), now)
  }

  lemma RenamedSubtrees(t: Tree, source: Path, destination: Path, now: int, r: Path)
    requires source != [] && destination != [] && !Nested(source, destination) && Sub(t, destination) == map[]
    ensures Sub(Renamed(t, source, destination, now), source) == map[]
    ensures Sub(Renamed(t, source, destination, now), destination) == Sub(t, source)
    ensures !Nested(r, source) && !Nested(r, destination) && !(r <= Parent(source)) && !(r <= Parent(destination)) ==>
              Sub(Renamed(t, source, destination, now), r) == Sub(t, r)
  {
    var t1 := Detach(t, source);
    var t2 := Attach(t1, destination, Sub(t, source));
    var t3 := Touch(t2, Parent(source), now);
    SubOfDetached(t, source, source);
    SubOfDetached(t, source, destination);
    SubOfAttached(t1, destination, Sub(t, source));
    SubBesideAttached(t1, destination, Sub(t, source), source);
    NotAboveParent(source, source);
    NotAboveParent(destination, destination);
    NotAboveParent(source, destination);
    NotAboveParent(destination, source);
    SubOfTouched(t2, Parent(source), now, source);
    SubOfTouched(t2, Parent(source), now, destination);
    SubOfTouched(t3, Parent(destination), now, source);
    SubOfTouched(t3, Parent(destination), now, destination);
    if !Nested(r, source) && !Nested(r, destination) && !(r <= Parent(source)) && !(r <= Parent(destination)) {
      SubOfDetached(t, source, r);
      SubBesideAttached(t1, destination, Sub(t, source), r);
      SubOfTouched(t2, Parent(source), now, r);
      SubOfTouched(t3, Parent(destination), now, r);
    }
  }

  lemma NotAboveParent(a: Path, b: Path)
    requires b != [] && (a == b || !(a <= b))
    ensures !(a <= Parent(b))
  {
  }

  lemma RenamedElsewhere(t: Tree, source: Path, destination: Path, now: int, p: Path)
    requires source != [] && destination != [] && !(source <= p) && !(destination <= p)
    ensures p in Renamed(t, source, destination, now) <==> p in t
    ensures p in t ==>
              var n := Renamed(t, source, destination, now)[p];
              n == t[p] || (p in {Parent(source), Parent(destination)} && Restamped(t[p], n))
  {
  }
}
