/** The coverage columns of the status snapshot (build_status_snapshot in cval/storage/status.py): one state per node,
    ranks for the nodes that need a run, and counts that add up. */
module StatusSnapshot {
  import opened Wrappers
  import opened Priority

  datatype Observation = Observation(name: string, identityChanged: bool, createdAt: int)

  datatype CoverageState = Fresh | Expired | Missing | Unverified

  datatype Row = Row(name: string, state: CoverageState, timestamp: Option<int>, rank: Option<nat>)

  datatype Counts = Counts(current: nat, expired: nat, missing: nat, unverified: nat)

  /** A timestamp older than the node itself belongs to its predecessor. */
  function UsableTimestamp(o: Observation, timestamps: map<string, int>): Option<int> {
    if o.identityChanged || o.name !in timestamps || timestamps[o.name] < o.createdAt then None else Some(timestamps[o.name])
  }

  function StateOf(o: Observation, available: bool, known: set<string>, timestamps: map<string, int>, days: real, now: int): CoverageState {
    if !available || o.name !in known || o.identityChanged then Unverified
    else
      match UsableTimestamp(o, timestamps)
      case None => Missing
      case Some(t) =>
        if t > now then Unverified
        else if (now - t) as real <= days * SECONDS_PER_DAY then Fresh
        else Expired
  }

  predicate NeedsRun(s: CoverageState) {
    s == Missing || s == Expired
  }

  /** The two freshness tests agree: a ranked node is one that the queue takes, a fresh one is one it leaves. */
  lemma FreshnessAgrees(o: Observation, available: bool, known: set<string>, timestamps: map<string, int>, days: real, now: int)
    requires forall n | n in timestamps :: timestamps[n] > 0
    ensures var s := StateOf(o, available, known, timestamps, days, now); var t := UsableTimestamp(o, timestamps);
      && (s == Expired ==> t.Some? && Needs(t.value, days, now as real))
      && (s == Missing ==> Needs(0, days, now as real))
      && (s == Fresh ==> t.Some? && !Needs(t.value, days, now as real))
  {
  }

  function NeededNames(rows: seq<Row>): seq<string> {
    if rows == [] then []
    else NeededNames(rows[..|rows| - 1]) + (if NeedsRun(rows[|rows| - 1].state) then [rows[|rows| - 1].name] else [])
  }

  predicate NeededAt(rows: seq<Row>, n: string, i: int) {
    0 <= i < |rows| && rows[i].name == n && NeedsRun(rows[i].state)
  }

  lemma {:induction false} NeededNameAt(rows: seq<Row>, n: string) returns (i: int)
    requires n in NeededNames(rows)
    ensures NeededAt(rows, n, i)
  {
    var front, last := rows[..|rows| - 1], rows[|rows| - 1];
    if n in NeededNames(front) {
      i := NeededNameAt(front, n);
      assert rows[i] == front[i];
    } else {
      i := |front|;
    }
  }

  lemma {:induction false} NameNeeded(rows: seq<Row>, n: string, i: int)
    requires NeededAt(rows, n, i)
    ensures n in NeededNames(rows)
  {
    var front := rows[..|rows| - 1];
    if i < |front| {
      assert rows[i] == front[i];
      NameNeeded(front, n, i);
    }
  }

  lemma {:induction false} NeededNamesDiffer(rows: seq<Row>)
    requires forall i, j | 0 <= i < j < |rows| :: rows[i].name != rows[j].name
    ensures forall i, j | 0 <= i < j < |NeededNames(rows)| :: NeededNames(rows)[i] != NeededNames(rows)[j]
  {
    if rows != [] {
      var front, last := rows[..|rows| - 1], rows[|rows| - 1];
      assert forall i | 0 <= i < |front| :: front[i] == rows[i];
      NeededNamesDiffer(front);
      var names := NeededNames(front);
      forall a | 0 <= a < |names| ensures names[a] != last.name {
        var i := NeededNameAt(front, names[a]);
        assert rows[i].name == names[a];
      }
      hide NeedsRun;
      assert NeededNames(rows) == names + (if NeedsRun(last.state) then [last.name] else []);
    }
  }

  lemma {:induction false} AllNeeded(nodes: seq<string>, latest: map<string, int>, days: real, now: real)
    requires forall n | n in nodes :: Needs(LastTested(latest, n), days, now)
    ensures |Needing(nodes, latest, days, now)| == |nodes|
  {
    if nodes != [] {
      assert nodes[|nodes| - 1] in nodes;
      AllNeeded(nodes[..|nodes| - 1], latest, days, now);
    }
  }

  lemma {:induction false} OncePerNode(s: seq<Candidate>, c: Candidate)
    requires forall i, j | 0 <= i < j < |s| :: s[i].node != s[j].node
    ensures multiset(s)[c] <= 1
  {
    if s != [] {
      var front, last := s[..|s| - 1], s[|s| - 1];
      assert s == front + [last];
      OncePerNode(front, c);
      if last == c {
        assert forall i | 0 <= i < |front| :: front[i] != c;
      }
    }
  }

  lemma TwiceInMultiset(s: seq<Candidate>, i: nat, j: nat)
    requires i < j < |s| && s[i] == s[j]
    ensures multiset(s)[s[i]] >= 2
  {
    assert s == s[..j] + [s[j]] + s[j + 1..];
    assert s[..j] == s[..i] + [s[i]] + s[i + 1..j];
  }

  /** A permutation of candidates with distinct nodes has distinct nodes. */
  lemma PermutedNodes(a: seq<Candidate>, b: seq<Candidate>)
    requires multiset(a) == multiset(b) && forall i, j | 0 <= i < j < |a| :: a[i].node != a[j].node
    ensures |a| == |b| && forall i, j | 0 <= i < j < |b| :: b[i].node != b[j].node
  {
    assert |a| == |multiset(a)| && |b| == |multiset(b)|;
    forall i, j | 0 <= i < j < |b| ensures b[i].node != b[j].node {
      assert b[i] in multiset(b) && b[j] in multiset(b);
      assert b[i] in a && b[j] in a;
      if b[i].node == b[j].node {
        TwiceInMultiset(b, i, j);
        OncePerNode(a, b[i]);
      }
    }
  }

  /** Ranks are a bijection from the nodes that need a run onto 1..n, in priority order. */
  ghost predicate Ranked(rows: seq<Row>, n: nat) {
    && (forall i | 0 <= i < |rows| :: rows[i].rank.Some? <==> NeedsRun(rows[i].state))
    && (forall i | 0 <= i < |rows| && rows[i].rank.Some? :: 1 <= rows[i].rank.value <= n)
    && (forall i, j | 0 <= i < j < |rows| && rows[i].rank.Some? && rows[j].rank.Some? :: rows[i].rank.value != rows[j].rank.value)
    && (forall k | 1 <= k <= n :: Taken(rows, k))
  }

  ghost predicate Taken(rows: seq<Row>, k: nat) {
    exists i :: HasRank(rows, i, k)
  }

  predicate HasRank(rows: seq<Row>, i: int, k: nat) {
    0 <= i < |rows| && rows[i].rank == Some(k)
  }

  function RankIn(queue: seq<Queued>, name: string): (rank: Option<nat>)
    ensures rank.Some? ==> exists i :: 0 <= i < |queue| && queue[i].node == name && queue[i].priority == rank.value
    ensures rank.None? ==> forall i | 0 <= i < |queue| :: queue[i].node != name
  {
    if queue == [] then None
    else if queue[|queue| - 1].node == name then Some(queue[|queue| - 1].priority)
    else RankIn(queue[..|queue| - 1], name)
  }

  /** Every needed name is queued exactly once. */
  lemma QueueHoldsNames(names: seq<string>, latest: map<string, int>, days: real, now: real, queue: seq<Queued>)
    requires forall i, j | 0 <= i < j < |names| :: names[i] != names[j]
    requires forall n | n in names :: Needs(LastTested(latest, n), days, now)
    requires multiset(Candidates(queue)) == multiset(Needing(names, latest, days, now))
    ensures |queue| == |names| && (forall i, j | 0 <= i < j < |queue| :: queue[i].node != queue[j].node)
    ensures forall i | 0 <= i < |queue| :: queue[i].node in names
    ensures forall n | n in names :: exists i :: QueuedAt(queue, n, i)
  {
    var c, q := Needing(names, latest, days, now), Candidates(queue);
    NeedingNodes(names, latest, days, now);
    AllNeeded(names, latest, days, now);
    PermutedNodes(c, q);
    assert forall i | 0 <= i < |queue| :: q[i].node == queue[i].node;
    hide Needing, Needs, LastTested, Candidates;
    forall n | n in names ensures exists i :: QueuedAt(queue, n, i) {
      assert Candidate(n, LastTested(latest, n)) in c;
      assert Candidate(n, LastTested(latest, n)) in multiset(q);
      var i :| 0 <= i < |q| && q[i] == Candidate(n, LastTested(latest, n));
      assert QueuedAt(queue, n, i);
    }
    forall i | 0 <= i < |queue| ensures queue[i].node in names {
      assert q[i] in multiset(c);
      assert q[i] in c;
    }
  }

  function CountOf(rows: seq<Row>, s: CoverageState): nat {
    if rows == [] then 0 else CountOf(rows[..|rows| - 1], s) + (if rows[|rows| - 1].state == s then 1 else 0)
  }

  lemma {:induction false} CountsAddUp(rows: seq<Row>)
    ensures CountOf(rows, Fresh) + CountOf(rows, Expired) + CountOf(rows, Missing) + CountOf(rows, Unverified) == |rows|
  {
    if rows != [] {
      CountsAddUp(rows[..|rows| - 1]);
    }
  }

  predicate QueuedAt(queue: seq<Queued>, n: string, i: int) {
    0 <= i < |queue| && queue[i].node == n
  }

  /** The queue holds exactly the needed names, each once, numbered in order. */
  ghost predicate QueueFits(plain: seq<Row>, queue: seq<Queued>) {
    && (forall i | 0 <= i < |queue| :: queue[i].priority == i + 1 && queue[i].node in NeededNames(plain))
    && (forall i, j | 0 <= i < j < |queue| :: queue[i].node != queue[j].node)
    && (forall n | n in NeededNames(plain) :: exists i :: QueuedAt(queue, n, i))
  }

  lemma {:induction false} NeededIsRanked(plain: seq<Row>, queue: seq<Queued>, i: nat)
    requires i < |plain| && QueueFits(plain, queue) && NeedsRun(plain[i].state)
    ensures RankIn(queue, plain[i].name).Some?
  {
    hide NeededNames, NeedsRun, RankIn;
    NameNeeded(plain, plain[i].name, i);
    assert exists j :: QueuedAt(queue, plain[i].name, j);
  }

  lemma {:induction false} RankedIsNeeded(plain: seq<Row>, queue: seq<Queued>, i: nat)
    requires i < |plain| && (forall a, b | 0 <= a < b < |plain| :: plain[a].name != plain[b].name) && QueueFits(plain, queue)
    requires RankIn(queue, plain[i].name).Some?
    ensures NeedsRun(plain[i].state)
    ensures var rank := RankIn(queue, plain[i].name).value; 1 <= rank <= |queue| && queue[rank - 1].node == plain[i].name
  {
    hide NeededNames, NeedsRun, RankIn;
    var name := plain[i].name;
    var j :| 0 <= j < |queue| && queue[j].node == name && queue[j].priority == RankIn(queue, name).value;
    var k := NeededNameAt(plain, name);
    assert k == i;
  }

  lemma {:induction false} RankFacts(plain: seq<Row>, queue: seq<Queued>, i: nat)
    requires i < |plain| && (forall a, b | 0 <= a < b < |plain| :: plain[a].name != plain[b].name) && QueueFits(plain, queue)
    ensures var rank := RankIn(queue, plain[i].name);
      && (rank.Some? <==> NeedsRun(plain[i].state))
      && (rank.Some? ==> 1 <= rank.value <= |queue| && queue[rank.value - 1].node == plain[i].name)
  {
    hide QueueFits, NeedsRun;
    if NeedsRun(plain[i].state) {
      NeededIsRanked(plain, queue, i);
    }
    if RankIn(queue, plain[i].name).Some? {
      RankedIsNeeded(plain, queue, i);
    }
  }

  lemma {:induction false} RanksDiffer(plain: seq<Row>, queue: seq<Queued>, i: nat, j: nat)
    requires (forall a, b | 0 <= a < b < |plain| :: plain[a].name != plain[b].name) && QueueFits(plain, queue) && i < j < |plain|
    requires RankIn(queue, plain[i].name).Some? && RankIn(queue, plain[j].name).Some?
    ensures RankIn(queue, plain[i].name).value != RankIn(queue, plain[j].name).value
  {
    hide QueueFits, NeedsRun, RankIn;
    RankFacts(plain, queue, i);
    RankFacts(plain, queue, j);
    assert plain[i].name != plain[j].name;
  }

  /** Rows that take their ranks from such a queue are ranked one to one. */
  lemma {:induction false} RankedByQueue(plain: seq<Row>, queue: seq<Queued>, rows: seq<Row>)
    requires (forall i, j | 0 <= i < j < |plain| :: plain[i].name != plain[j].name) && QueueFits(plain, queue)
    requires |rows| == |plain| && forall i | 0 <= i < |rows| :: rows[i] == plain[i].(rank := RankIn(queue, plain[i].name))
    ensures Ranked(rows, |queue|)
  {
    hide NeededNames, NeedsRun, RankIn, QueueFits;
    forall i | 0 <= i < |rows|
      ensures rows[i].rank.Some? <==> NeedsRun(rows[i].state)
      ensures rows[i].rank.Some? ==> 1 <= rows[i].rank.value <= |queue|
    {
      RankFacts(plain, queue, i);
    }
    forall i, j | 0 <= i < j < |rows| && rows[i].rank.Some? && rows[j].rank.Some? ensures rows[i].rank.value != rows[j].rank.value {
      RanksDiffer(plain, queue, i, j);
    }
    forall k | 1 <= k <= |queue| ensures Taken(rows, k) {
      var i := RankTaken(plain, queue, k);
      assert HasRank(rows, i, k);
    }
  }

  lemma RankTaken(plain: seq<Row>, queue: seq<Queued>, k: nat) returns (i: int)
    requires (forall i, j | 0 <= i < j < |plain| :: plain[i].name != plain[j].name) && QueueFits(plain, queue) && 1 <= k <= |queue|
    ensures 0 <= i < |plain| && RankIn(queue, plain[i].name) == Some(k)
  {
    hide NeededNames, NeedsRun, RankIn;
    i := NeededNameAt(plain, queue[k - 1].node);
    RankFacts(plain, queue, i);
    assert queue[RankIn(queue, plain[i].name).value - 1].node == queue[k - 1].node;
  }

  /** The loop over the observations, with the timestamps of the expired nodes. */
  method PlainRows(observations: seq<Observation>, available: bool, known: set<string>, timestamps: map<string, int>, days: real, now: int)
    returns (plain: seq<Row>, expired: map<string, int>)
    requires forall i, j | 0 <= i < j < |observations| :: observations[i].name != observations[j].name
    ensures |plain| == |observations|
    ensures forall j | 0 <= j < |plain| ::
        plain[j] == Row(observations[j].name, StateOf(observations[j], available, known, timestamps, days, now),
                        UsableTimestamp(observations[j], timestamps), None)
    ensures forall j | 0 <= j < |plain| && plain[j].state == Expired && plain[j].timestamp.Some? ::
        plain[j].name in expired && expired[plain[j].name] == plain[j].timestamp.value
    ensures forall n | n in expired :: exists j :: ExpiredAt(plain, n, j)
  {
    hide StateOf, UsableTimestamp;
    plain, expired := [], map[];
    for i := 0 to |observations|
      invariant |plain| == i && forall j | 0 <= j < i ::
        plain[j] == Row(observations[j].name, StateOf(observations[j], available, known, timestamps, days, now),
                        UsableTimestamp(observations[j], timestamps), None)
      invariant forall j | 0 <= j < i && plain[j].state == Expired && plain[j].timestamp.Some? ::
        plain[j].name in expired && expired[plain[j].name] == plain[j].timestamp.value
      invariant forall n | n in expired :: exists j :: ExpiredAt(plain, n, j)
    {
      var o := observations[i];
      var row := Row(o.name, StateOf(o, available, known, timestamps, days, now), UsableTimestamp(o, timestamps), None);
      ExpiredStill(plain, row, expired);
      if row.state == Expired && row.timestamp.Some? {
        expired := expired[o.name := row.timestamp.value];
      }
      plain := plain + [row];
    }
  }

  /** build_status_snapshot, coverage columns: states, ranks from the scheduler's own queue, and counts. */
  method BuildStatusSnapshot(observations: seq<Observation>, available: bool, known: set<string>, timestamps: map<string, int>, days: real,
                             now: int)
    returns (rows: seq<Row>, counts: Counts, queue: seq<Queued>)
    requires forall i, j | 0 <= i < j < |observations| :: observations[i].name != observations[j].name
    requires forall n | n in timestamps :: timestamps[n] > 0
    ensures |rows| == |observations|
    ensures forall i | 0 <= i < |rows| ::
              rows[i].name == observations[i].name
              && rows[i].state == StateOf(observations[i], available, known, timestamps, days, now)
    ensures counts == Counts(CountOf(rows, Fresh), CountOf(rows, Expired), CountOf(rows, Missing), CountOf(rows, Unverified))
    ensures counts.current + counts.expired + counts.missing + counts.unverified == |rows|
    ensures Ranked(rows, counts.expired + counts.missing) && |queue| == counts.expired + counts.missing
    ensures Sorted(Candidates(queue)) && forall i | 0 <= i < |rows| && rows[i].rank.Some? ::
              1 <= rows[i].rank.value <= |queue| && queue[rows[i].rank.value - 1].node == rows[i].name
  {
    hide StateOf, Ranked, NeededNames, Needs, LastTested, Sorted, UsableTimestamp, Needing, Candidates, NeedsRun, CountOf, RankIn;
    var plain, expired := PlainRows(observations, available, known, timestamps, days, now);
    NamesDistinct(observations, plain);
    var names := NeededNames(plain);
    AllNeedRuns(observations, available, known, timestamps, days, now, plain, expired);
    NeededNamesDiffer(plain);
    queue := BuildPriorityQueue(names, expired, days, now as real, false);
    QueueHoldsNames(names, expired, days, now as real, queue);
    rows := seq(|plain|, i requires 0 <= i < |plain| => plain[i].(rank := RankIn(queue, plain[i].name)));
    RankedByQueue(plain, queue, rows);
    SnapshotCounts(plain, rows);
    counts := Counts(CountOf(rows, Fresh), CountOf(rows, Expired), CountOf(rows, Missing), CountOf(rows, Unverified));
    RanksPointAtQueue(plain, queue, rows);
  }

  lemma {:induction false} RanksPointAtQueue(plain: seq<Row>, queue: seq<Queued>, rows: seq<Row>)
    requires (forall a, b | 0 <= a < b < |plain| :: plain[a].name != plain[b].name) && QueueFits(plain, queue)
    requires |rows| == |plain| && forall i | 0 <= i < |rows| :: rows[i] == plain[i].(rank := RankIn(queue, plain[i].name))
    ensures forall i | 0 <= i < |rows| && rows[i].rank.Some? ::
              1 <= rows[i].rank.value <= |queue| && queue[rows[i].rank.value - 1].node == rows[i].name
  {
    forall i | 0 <= i < |rows| && rows[i].rank.Some?
      ensures 1 <= rows[i].rank.value <= |queue| && queue[rows[i].rank.value - 1].node == rows[i].name
    {
      RankFacts(plain, queue, i);
    }
  }

  /** Every needed name is one that the queue takes. */
  lemma {:induction false} AllNeedRuns(observations: seq<Observation>, available: bool, known: set<string>, timestamps: map<string, int>, days: real, now: int,
                    plain: seq<Row>, expired: map<string, int>)
    requires (forall n | n in timestamps :: timestamps[n] > 0) && |plain| == |observations|
    requires forall a, b | 0 <= a < b < |plain| :: plain[a].name != plain[b].name
    requires forall j | 0 <= j < |plain| ::
        plain[j] == Row(observations[j].name, StateOf(observations[j], available, known, timestamps, days, now),
                        UsableTimestamp(observations[j], timestamps), None)
    requires forall j | 0 <= j < |plain| && plain[j].state == Expired && plain[j].timestamp.Some? ::
        plain[j].name in expired && expired[plain[j].name] == plain[j].timestamp.value
    requires forall n | n in expired :: exists j :: ExpiredAt(plain, n, j)
    ensures forall n | n in NeededNames(plain) :: Needs(LastTested(expired, n), days, now as real)
  {
    hide StateOf, NeededNames, Needs, LastTested, UsableTimestamp;
    forall n | n in NeededNames(plain) ensures Needs(LastTested(expired, n), days, now as real) {
      var j := NeededNameAt(plain, n);
      ExpiredOnly(plain, expired, j);
      NeededNeeds(observations[j], available, known, timestamps, days, now, expired);
    }
  }

  lemma {:induction false} SnapshotCounts(plain: seq<Row>, rows: seq<Row>)
    requires |plain| == |rows| && forall i | 0 <= i < |rows| :: rows[i].state == plain[i].state
    ensures CountOf(rows, Fresh) + CountOf(rows, Expired) + CountOf(rows, Missing) + CountOf(rows, Unverified) == |rows|
    ensures |NeededNames(plain)| == CountOf(rows, Expired) + CountOf(rows, Missing)
  {
    SameCounts(plain, rows);
    NeededCount(plain);
    CountsAddUp(rows);
  }

  lemma NamesDistinct(observations: seq<Observation>, plain: seq<Row>)
    requires forall i, j | 0 <= i < j < |observations| :: observations[i].name != observations[j].name
    requires |plain| == |observations| && forall i | 0 <= i < |plain| :: plain[i].name == observations[i].name
    ensures forall i, j | 0 <= i < j < |plain| :: plain[i].name != plain[j].name
  {
  }

  predicate ExpiredAt(rows: seq<Row>, n: string, j: int) {
    0 <= j < |rows| && rows[j].name == n && rows[j].state == Expired
  }

  lemma ExpiredStill(plain: seq<Row>, row: Row, expired: map<string, int>)
    requires forall n | n in expired :: exists j :: ExpiredAt(plain, n, j)
    ensures forall n | n in expired :: exists j :: ExpiredAt(plain + [row], n, j)
    ensures row.state == Expired ==> ExpiredAt(plain + [row], row.name, |plain|)
  {
    forall n | n in expired ensures exists j :: ExpiredAt(plain + [row], n, j) {
      var j :| ExpiredAt(plain, n, j);
      assert ExpiredAt(plain + [row], n, j);
    }
  }

  lemma ExpiredOnly(plain: seq<Row>, expired: map<string, int>, j: int)
    requires forall a, b | 0 <= a < b < |plain| :: plain[a].name != plain[b].name
    requires (forall n | n in expired :: exists k :: ExpiredAt(plain, n, k)) && 0 <= j < |plain|
    ensures plain[j].name in expired ==> plain[j].state == Expired
  {
    if plain[j].name in expired {
      var k :| ExpiredAt(plain, plain[j].name, k);
      assert k == j;
    }
  }

  /** Every node that the snapshot wants ranked is one that the queue takes. */
  lemma NeededNeeds(o: Observation, available: bool, known: set<string>, timestamps: map<string, int>, days: real, now: int,
                    expired: map<string, int>)
    requires forall n | n in timestamps :: timestamps[n] > 0
    requires var s := StateOf(o, available, known, timestamps, days, now); var t := UsableTimestamp(o, timestamps);
      && NeedsRun(s)
      && (s == Expired && t.Some? ==> o.name in expired && expired[o.name] == t.value)
      && (o.name in expired ==> s == Expired)
    ensures Needs(LastTested(expired, o.name), days, now as real)
  {
    FreshnessAgrees(o, available, known, timestamps, days, now);
  }

  lemma {:induction false} SameCounts(plain: seq<Row>, rows: seq<Row>)
    requires |plain| == |rows| && forall i | 0 <= i < |rows| :: rows[i].state == plain[i].state
    ensures forall s :: CountOf(rows, s) == CountOf(plain, s)
  {
    if rows != [] {
      SameCounts(plain[..|plain| - 1], rows[..|rows| - 1]);
    }
  }

  lemma {:induction false} NeededCount(rows: seq<Row>)
    ensures |NeededNames(rows)| == CountOf(rows, Expired) + CountOf(rows, Missing)
  {
    if rows != [] {
      NeededCount(rows[..|rows| - 1]);
    }
  }
}
