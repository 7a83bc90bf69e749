/** build_priority_queue (cval/scheduler/priority.py). Times are seconds, thresholds real numbers. */
module Priority {
  const SECONDS_PER_DAY := 86400.0

  datatype Candidate = Candidate(node: string, lastTested: int)

  datatype Queued = Queued(node: string, priority: nat, lastTested: int)

  /** Never tested, or older than the threshold. */
  predicate Needs(lastTested: int, days: real, now: real) {
    lastTested <= 0 || now - lastTested as real > days * SECONDS_PER_DAY
  }

  /** Python's string order. */
  predicate AtMost(a: string, b: string) {
    a == "" || (b != "" && (a[0] < b[0] || (a[0] == b[0] && AtMost(a[1..], b[1..]))))
  }

  predicate Before(a: Candidate, b: Candidate) {
    a.lastTested < b.lastTested || (a.lastTested == b.lastTested && AtMost(a.node, b.node))
  }

  lemma {:induction false} AtMostTotal(a: string, b: string)
    ensures AtMost(a, b) || AtMost(b, a)
  {
    if a != "" && b != "" && a[0] == b[0] {
      AtMostTotal(a[1..], b[1..]);
    }
  }

  lemma {:induction false} AtMostTransitive(a: string, b: string, c: string)
    requires AtMost(a, b) && AtMost(b, c)
    ensures AtMost(a, c)
  {
    if a != "" && a[0] == b[0] == c[0] {
      AtMostTransitive(a[1..], b[1..], c[1..]);
    }
  }

  lemma BeforeTransitive(a: Candidate, b: Candidate, c: Candidate)
    requires Before(a, b) && Before(b, c)
    ensures Before(a, c)
  {
    if a.lastTested == b.lastTested == c.lastTested {
      AtMostTransitive(a.node, b.node, c.node);
    }
  }

  predicate Sorted(s: seq<Candidate>) {
    forall i, j | 0 <= i < j < |s| :: Before(s[i], s[j])
  }

  method SortCandidates(c: seq<Candidate>) returns (s: seq<Candidate>)
    ensures multiset(s) == multiset(c) && Sorted(s)
  {
    hide Before;
    s := [];
    for i := 0 to |c|
      invariant multiset(s) == multiset(c[..i]) && Sorted(s)
    {
      var k := 0;
      while k < |s| && Before(s[k], c[i])
        invariant k <= |s| && forall j | 0 <= j < k :: Before(s[j], c[i])
      {
        k := k + 1;
      }
      InsertSorted(s, c[i], k);
      assert c[..i + 1] == c[..i] + [c[i]];
      assert s == s[..k] + s[k..];
      s := s[..k] + [c[i]] + s[k..];
    }
    assert c[..|c|] == c;
  }

  lemma InsertSorted(s: seq<Candidate>, x: Candidate, k: nat)
    requires Sorted(s) && k <= |s| && (forall j | 0 <= j < k :: Before(s[j], x)) && (k < |s| ==> !Before(s[k], x))
    ensures Sorted(s[..k] + [x] + s[k..])
  {
    forall j | k <= j < |s| ensures Before(x, s[j]) {
      BeforeTotal(x, s[k]);
      if j > k {
        BeforeTransitive(x, s[k], s[j]);
      }
    }
    hide Before;
    var t := s[..k] + [x] + s[k..];
    forall i, j | 0 <= i < j < |t| ensures Before(t[i], t[j]) {
      assert i < k ==> t[i] == s[i];
      assert i > k ==> t[i] == s[i - 1];
      assert j < k ==> t[j] == s[j];
      assert j > k ==> t[j] == s[j - 1];
    }
  }

  lemma BeforeTotal(a: Candidate, b: Candidate)
    ensures Before(a, b) || Before(b, a)
  {
    AtMostTotal(a.node, b.node);
  }

  function LastTested(latest: map<string, int>, node: string): int {
    if node in latest && latest[node] > 0 then latest[node] else 0
  }

  /** The nodes that need a run, in input order. */
  function Needing(nodes: seq<string>, latest: map<string, int>, days: real, now: real): seq<Candidate> {
    if nodes == [] then []
    else
      var node := nodes[|nodes| - 1];
      Needing(nodes[..|nodes| - 1], latest, days, now)
      + (if Needs(LastTested(latest, node), days, now) then [Candidate(node, LastTested(latest, node))] else [])
  }

  lemma NeedingNext(nodes: seq<string>, latest: map<string, int>, days: real, now: real, i: nat)
    requires i < |nodes|
    ensures Needing(nodes[..i + 1], latest, days, now)
         == Needing(nodes[..i], latest, days, now)
            + (if Needs(LastTested(latest, nodes[i]), days, now) then [Candidate(nodes[i], LastTested(latest, nodes[i]))] else [])
  {
    assert nodes[..i + 1][..i] == nodes[..i];
  }

  function CandidateOf(q: Queued): Candidate {
    Candidate(q.node, q.lastTested)
  }

  function Candidates(queue: seq<Queued>): seq<Candidate> {
    seq(|queue|, i requires 0 <= i < |queue| => CandidateOf(queue[i]))
  }

  method BuildPriorityQueue(nodes: seq<string>, latest: map<string, int>, days: real, now: real, shuffle: bool) returns (queue: seq<Queued>)
    ensures forall i | 0 <= i < |queue| :: queue[i].priority == i + 1
    ensures multiset(Candidates(queue)) == multiset(Needing(nodes, latest, days, now))
    ensures !shuffle ==> Sorted(Candidates(queue))
  {
    hide Needs, LastTested;
    var candidates: seq<Candidate> := [];
    for i := 0 to |nodes|
      invariant candidates == Needing(nodes[..i], latest, days, now)
    {
      NeedingNext(nodes, latest, days, now, i);
      var lastTested := LastTested(latest, nodes[i]);
      if Needs(lastTested, days, now) {
        candidates := candidates + [Candidate(nodes[i], lastTested)];
      }
    }
    assert nodes[..|nodes|] == nodes;
    var ordered;
    if shuffle {
      ordered := *;
      if multiset(ordered) != multiset(candidates) {
        ordered := candidates;
      }
    } else {
      ordered := SortCandidates(candidates);
    }
    queue := seq(|ordered|, i requires 0 <= i < |ordered| => Queued(ordered[i].node, i + 1, ordered[i].lastTested));
    assert Candidates(queue) == ordered;
  }

  lemma {:induction false} NeedingNodes(nodes: seq<string>, latest: map<string, int>, days: real, now: real)
    requires forall i, j | 0 <= i < j < |nodes| :: nodes[i] != nodes[j]
    ensures var c := Needing(nodes, latest, days, now);
      && (forall i, j | 0 <= i < j < |c| :: c[i].node != c[j].node)
      && (forall i | 0 <= i < |c| :: c[i].node in nodes && c[i].lastTested == LastTested(latest, c[i].node))
      && (forall n | n in nodes && Needs(LastTested(latest, n), days, now) :: Candidate(n, LastTested(latest, n)) in c)
  {
    if nodes != [] {
      var front := nodes[..|nodes| - 1];
      assert nodes == front + [nodes[|nodes| - 1]];
      NeedingNodes(front, latest, days, now);
    }
  }
}
