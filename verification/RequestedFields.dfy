/** _requested_fields_match (cval/jobs/manager.py): an observed document carries everything a requested one asks for. */
module RequestedFields {
  import opened Wrappers

  /** A document as YAML and JSON give it. Scalars of different types are different values. */
  datatype Document =
    | Absent
    | Flag(b: bool)
    | Number(n: int)
    | Text(s: string)
    | Sequence(items: seq<Document>)
    | Fields(entries: map<string, Document>)

  /** Mappings may gain keys, sequences must match item by item, and scalars must be equal. */
  predicate Matches(expected: Document, observed: Document)
    decreases expected
  {
    match expected
    case Fields(wanted) =>
      observed.Fields? && forall k | k in wanted :: k in observed.entries && Matches(wanted[k], observed.entries[k])
    case Sequence(wanted) =>
      observed.Sequence? && |wanted| == |observed.items|
      && forall i | 0 <= i < |wanted| :: Matches(wanted[i], observed.items[i])
    case _ => expected == observed
  }

  lemma {:induction false} MatchesItself(d: Document)
    ensures Matches(d, d)
  {
    match d
    case Fields(entries) =>
      forall k | k in entries ensures Matches(entries[k], entries[k]) {
        MatchesItself(entries[k]);
      }
    case Sequence(items) =>
      forall i | 0 <= i < |items| ensures Matches(items[i], items[i]) {
        MatchesItself(items[i]);
      }
    case _ =>
  }

  /** What matches through an intermediate document matches directly. */
  lemma {:induction false} MatchesTransitively(a: Document, b: Document, c: Document)
    requires Matches(a, b) && Matches(b, c)
    ensures Matches(a, c)
    decreases a
  {
    match a
    case Fields(entries) =>
      forall k | k in entries ensures k in c.entries && Matches(entries[k], c.entries[k]) {
        MatchesTransitively(entries[k], b.entries[k], c.entries[k]);
      }
    case Sequence(items) =>
      forall i | 0 <= i < |items| ensures Matches(items[i], c.items[i]) {
        MatchesTransitively(items[i], b.items[i], c.items[i]);
      }
    case _ =>
  }

  /** Two documents that ask for nothing more than each other are equal. */
  lemma {:induction false} MutualMatchesAreEqual(a: Document, b: Document)
    requires Matches(a, b) && Matches(b, a)
    ensures a == b
    decreases a
  {
    match a
    case Fields(entries) =>
      forall k | k in entries ensures entries[k] == b.entries[k] {
        MutualMatchesAreEqual(entries[k], b.entries[k]);
      }
      assert entries == b.entries;
    case Sequence(items) =>
      forall i | 0 <= i < |items| ensures items[i] == b.items[i] {
        MutualMatchesAreEqual(items[i], b.items[i]);
      }
      assert items == b.items;
    case _ =>
  }

  datatype Step = Key(name: string) | Index(i: nat)

  /** What stands at one place of a document: a mapping, a sequence of some length, or a scalar. */
  datatype Shape = Mapping | ListOf(length: nat) | Scalar(value: Document)

  function ShapeOf(d: Document): Shape {
    match d
    case Fields(_) => Mapping
    case Sequence(items) => ListOf(|items|)
    case _ => Scalar(d)
  }

  function Child(d: Document, step: Step): Option<Document> {
    match step
    case Key(name) => if d.Fields? && name in d.entries then Some(d.entries[name]) else None
    case Index(i) => if d.Sequence? && i < |d.items| then Some(d.items[i]) else None
  }

  function At(d: Document, path: seq<Step>): Option<Shape>
    decreases |path|
  {
    if path == [] then Some(ShapeOf(d))
    else
      match Child(d, path[0])
      case None => None
      case Some(child) => At(child, path[1..])
  }

  ghost predicate AgreesAt(expected: Document, observed: Document, path: seq<Step>) {
    At(expected, path).Some? ==> At(observed, path) == At(expected, path)
  }

  /** A match is agreement at every place of the requested document: a changed or missing requested value is always
      noticed, wherever it stands, and an added field never is. */
  lemma MatchesIffAgreesEverywhere(expected: Document, observed: Document)
    ensures Matches(expected, observed) <==> forall path :: AgreesAt(expected, observed, path)
  {
    if Matches(expected, observed) {
      forall path ensures AgreesAt(expected, observed, path) {
        MatchAgrees(expected, observed, path);
      }
    }
    if forall path :: AgreesAt(expected, observed, path) {
      AgreementMatches(expected, observed);
    }
  }

  lemma {:induction false} MatchAgrees(expected: Document, observed: Document, path: seq<Step>)
    requires Matches(expected, observed)
    ensures AgreesAt(expected, observed, path)
    decreases |path|
  {
    if path != [] && Child(expected, path[0]).Some? {
      MatchAgrees(Child(expected, path[0]).value, Child(observed, path[0]).value, path[1..]);
    }
  }

  lemma {:induction false} AgreementMatches(expected: Document, observed: Document)
    requires forall path :: AgreesAt(expected, observed, path)
    ensures Matches(expected, observed)
    decreases expected
  {
    assert AgreesAt(expected, observed, []);
    match expected
    case Fields(entries) =>
      forall k | k in entries ensures k in observed.entries && Matches(entries[k], observed.entries[k]) {
        ChildAgrees(expected, observed, Key(k));
        AgreementMatches(entries[k], observed.entries[k]);
      }
    case Sequence(items) =>
      forall i | 0 <= i < |items| ensures Matches(items[i], observed.items[i]) {
        ChildAgrees(expected, observed, Index(i));
        AgreementMatches(items[i], observed.items[i]);
      }
    case _ =>
  }

  lemma ChildAgrees(expected: Document, observed: Document, step: Step)
    requires Child(expected, step).Some? && forall path :: AgreesAt(expected, observed, path)
    ensures Child(observed, step).Some? && forall path :: AgreesAt(Child(expected, step).value, Child(observed, step).value, path)
  {
    assert At(expected, [step]) == Some(ShapeOf(Child(expected, step).value)) by {
      assert [step][1..] == [];
    }
    assert AgreesAt(expected, observed, [step]);
    forall path ensures AgreesAt(Child(expected, step).value, Child(observed, step).value, path) {
      assert ([step] + path)[1..] == path;
      assert AgreesAt(expected, observed, [step] + path);
    }
  }
}
