/** Coverage selection and the coverage columns of the status snapshot (cval/storage/status.py). */
module Coverage {
  import opened EvidenceReader
  import opened ResultParser
  import opened ResultSchema
  import opened Wrappers

  /** The outcome columns of one status row. */
  datatype StatusOutcome = StatusOutcome(test: string, result: string, image: string, pytorch: string, cuda: string)

  /** The canonical evidence of a run. Absent: no result file, with or without its run directory. Historical: the v1
      envelope. Foreign: any other schema. Document: an envelope, whether it names this run, whether its summaries and
      digest receipt are in place. Damaged: unreadable JSON. Withheld: the store refuses or fails to answer. */
  datatype Canonical =
    | Absent(runDirectory: bool)
    | Historical
    | Foreign
    | Document(payload: Json, namesRun: bool, summaries: bool, receipt: bool)
    | Damaged
    | Withheld

  /** files: what was read of the evidence, by path; canonical is what it says. */
  datatype Run = Run(timestamp: int, rows: seq<StatusOutcome>, canonical: Canonical, files: map<Path, string>)

  datatype Verdict = Qualifies | Skipped | Fatal

  const BUILTIN: set<string> := {"storage", "nccl", "dltest"}

  predicate Conflicting(rows: seq<StatusOutcome>) {
    exists i, j :: 0 <= i < j < |rows| && rows[i].test == rows[j].test && rows[i] != rows[j]
  }

  predicate AllOf(rows: seq<StatusOutcome>, tests: set<string>, result: string) {
    forall t | t in tests :: exists i :: 0 <= i < |rows| && rows[i].test == t && rows[i].result == result
  }

  /** The result of every required test, finished and passing, in a complete passing envelope. */
  predicate FullyExercised(r: Envelope, required: set<string>) {
    && r.errors == [] && r.completedAt.Some? && r.overall == Pass
    && forall t | t in required ::
         t in r.tests && r.tests[t].enabled && r.tests[t].selected && r.tests[t].phase == Finished && r.tests[t].status == Pass
  }

  /** A passing status set over a canonical document. */
  function JudgeDocument(required: set<string>, d: Canonical): Verdict
    requires d.Document?
  {
    match Parse(d.payload)
    case None => Skipped
    case Some(r) =>
      if d.namesRun && FullyExercised(r, required) && d.summaries && (if r.schema == Compact then RecordingComplete(r) else d.receipt)
      then Qualifies else Skipped
  }

  /** One run of the selection loop. */
  function Judge(required: set<string>, run: Run): Verdict {
    var statusTests := required * BUILTIN + {"all"};
    if run.timestamp <= 0 then Fatal
    else if Conflicting(run.rows) || !AllOf(run.rows, statusTests, "pass") then Skipped
    else
      match run.canonical
      case Withheld => Fatal
      case Damaged => Skipped
      case Foreign => Skipped
      case Absent(runDirectory) => if !runDirectory && required <= BUILTIN then Qualifies else Skipped
      case Historical => if required <= BUILTIN then Qualifies else Skipped
      case Document(_, _, _, _) => JudgeDocument(required, run.canonical)
  }

  /** Runs newest first, as the query groups them. */
  predicate Descending(history: seq<Run>) {
    forall i, j | 0 <= i < j < |history| :: history[i].timestamp > history[j].timestamp
  }

  /** The newest qualifying run, with nothing but skipped runs before it. */
  predicate NewestQualifying(required: set<string>, history: seq<Run>, i: int) {
    && 0 <= i < |history| && Judge(required, history[i]) == Qualifies
    && forall j | 0 <= j < i :: Judge(required, history[j]) == Skipped
  }

  predicate NoneQualifies(required: set<string>, history: seq<Run>) {
    forall j | 0 <= j < |history| :: Judge(required, history[j]) == Skipped
  }

  /** What a node's coverage says of its history: the newest qualifying run within the limit, or that there is none. */
  ghost predicate AnswerFits(required: set<string>, history: seq<Run>, maxRuns: nat, coverage: Option<int>) {
    match coverage
    case Some(t) => t > 0 && exists k :: NewestQualifying(required, history, k) && k < maxRuns && history[k].timestamp == t
    case None => NoneQualifies(required, history) && |history| <= maxRuns
  }

  /** The scan ran into its limit, or into a run that makes the whole report unavailable, with no answer before it. */
  predicate StopsAt(required: set<string>, history: seq<Run>, maxRuns: nat, i: int) {
    && 0 <= i < |history| && (i >= maxRuns || Judge(required, history[i]) == Fatal)
    && forall j | 0 <= j < i :: Judge(required, history[j]) == Skipped
  }

  /** The loop over one node's history: stop at the first qualifying run, fail past the scan limit. */
  method SelectRun(required: set<string>, history: seq<Run>, maxRuns: nat) returns (ok: bool, timestamp: Option<int>)
    ensures ok ==> AnswerFits(required, history, maxRuns, timestamp)
    ensures !ok ==> exists i :: StopsAt(required, history, maxRuns, i)
  {
    hide JudgeDocument, Conflicting, AllOf;
    timestamp := None;
    for i := 0 to |history|
      invariant forall j | 0 <= j < i :: Judge(required, history[j]) == Skipped
      invariant i <= maxRuns || i == 0
    {
      if i >= maxRuns {
        assert StopsAt(required, history, maxRuns, i);
        return false, None;
      }
      match Judge(required, history[i]) {
        case Fatal =>
          assert StopsAt(required, history, maxRuns, i);
          return false, None;
        case Skipped =>
        case Qualifies =>
          assert NewestQualifying(required, history, i);
          return true, Some(history[i].timestamp);
      }
    }
    ok := true;
  }

  /** A newer attempt that does not qualify never advances coverage; at most it pushes the scan over its limit. */
  lemma NewerFailureKeepsCoverage(required: set<string>, history: seq<Run>, newer: Run, i: int)
    requires NewestQualifying(required, history, i) && Judge(required, newer) == Skipped
    ensures NewestQualifying(required, [newer] + history, i + 1) && ([newer] + history)[i + 1] == history[i]
    ensures forall k :: NewestQualifying(required, [newer] + history, k) ==> k == i + 1
  {
    hide Judge;
    var all := [newer] + history;
    assert forall j | 1 <= j < |all| :: all[j] == history[j - 1];
    forall k | NewestQualifying(required, all, k) ensures k == i + 1 {
      assert all[i + 1] == history[i];
    }
  }

  /** The selected run is the newest of all qualifying ones. */
  lemma SelectedIsNewest(required: set<string>, history: seq<Run>, i: int, k: int)
    requires Descending(history) && NewestQualifying(required, history, i)
    requires 0 <= k < |history| && Judge(required, history[k]) == Qualifies
    ensures history[k].timestamp <= history[i].timestamp
  {
    hide Judge;
  }

  datatype Item = Item(node: string, empty: bool, coverage: Option<int>)

  datatype ReportState = Queried | EmptyReport | Unavailable

  datatype Report = Report(state: ReportState, items: seq<Item>, timestamps: map<string, int>)

  function HistoryOf(histories: map<string, seq<Run>>, node: string): seq<Run> {
    if node in histories then histories[node] else []
  }

  /** Unique named rows, positive timestamps, and a map equal to the rows. */
  predicate RowsProject(items: seq<Item>, timestamps: map<string, int>) {
    && (forall i, j | 0 <= i < j < |items| :: items[i].node != items[j].node)
    && (forall i | 0 <= i < |items| :: items[i].node != "" && (items[i].coverage.Some? ==> items[i].coverage.value > 0))
    && (forall i | 0 <= i < |items| && items[i].coverage.Some? ::
          items[i].node in timestamps && timestamps[items[i].node] == items[i].coverage.value)
    && (forall n | n in timestamps :: exists i :: 0 <= i < |items| && items[i].node == n && items[i].coverage.Some?)
  }

  /** The projection that the planner demands. */
  predicate Projects(r: Report) {
    RowsProject(r.items, r.timestamps) && (r.state == EmptyReport ==> r.timestamps == map[])
  }

  function NodesOf(items: seq<Item>): set<string> {
    set i | i in items :: i.node
  }

  lemma NodesAdd(items: seq<Item>, item: Item)
    requires item.node !in NodesOf(items)
    ensures NodesOf(items + [item]) == NodesOf(items) + {item.node}
    ensures forall i | 0 <= i < |items| :: items[i].node != item.node
  {
    assert forall i | 0 <= i < |items| :: items[i] in items;
  }

  lemma RowAdds(items: seq<Item>, timestamps: map<string, int>, item: Item)
    requires RowsProject(items, timestamps) && item.node !in NodesOf(items)
    requires item.node != "" && (item.coverage.Some? ==> item.coverage.value > 0)
    ensures RowsProject(items + [item], if item.coverage.Some? then timestamps[item.node := item.coverage.value] else timestamps)
    ensures NodesOf(items + [item]) == NodesOf(items) + {item.node}
  {
    var all := items + [item];
    var next := if item.coverage.Some? then timestamps[item.node := item.coverage.value] else timestamps;
    NodesAdd(items, item);
    hide NodesOf;
    assert forall i | 0 <= i < |items| :: all[i] == items[i];
    assert all[|items|] == item;
    forall n | n in next ensures exists i :: 0 <= i < |all| && all[i].node == n && all[i].coverage.Some? {
      if n in timestamps {
        var i :| 0 <= i < |items| && items[i].node == n && items[i].coverage.Some?;
        assert all[i].node == n;
      } else {
        assert all[|items|].node == n;
      }
    }
  }

  /** Two maps that project the same rows are equal. */
  lemma ProjectionIsUnique(items: seq<Item>, a: map<string, int>, b: map<string, int>)
    requires RowsProject(items, a) && RowsProject(items, b)
    ensures a == b
  {
  }

  /** The contents that the runs were judged by are those the reader remembers. */
  predicate ReadThrough(histories: map<string, seq<Run>>, files: map<Path, Seen>) {
    forall n, r | n in histories && r in histories[n] :: forall p | p in r.files :: p in files && files[p].content == r.files[p]
  }

  /** The contents that the runs were judged by are on one disk, in regular files without other links. */
  predicate StoodTogether(histories: map<string, seq<Run>>, disk: Disk) {
    forall n, r | n in histories && r in histories[n] :: forall p | p in r.files ::
      p in disk && disk[p].content == r.files[p] && disk[p].regular && disk[p].links == 1
  }

  lemma RunsStood(histories: map<string, seq<Run>>, files: map<Path, Seen>, disk: Disk)
    requires ReadThrough(histories, files) && forall p | p in files :: Stands(disk, p, files[p])
    ensures StoodTogether(histories, disk)
  {
  }

  /** read_local_coverage over the requested nodes, in order. The histories are what was read through the reader; they
      are reported only if the final check finds every file still as it was read, so that all of them stood on one disk
      at the moment that check began. */
  method ReadLocalCoverage(reader: Reader, required: set<string>, nodes: seq<string>, histories: map<string, seq<Run>>, maxRuns: nat)
    returns (report: Report)
    requires reader.Valid() && ReadThrough(histories, reader.files)
    requires forall i, j | 0 <= i < j < |nodes| :: nodes[i] != nodes[j]
    requires forall i | 0 <= i < |nodes| :: nodes[i] != ""
    modifies reader`disk, reader`departed
    ensures reader.Valid() && Later(old(reader.disk), old(reader.departed), reader.disk, reader.departed)
    ensures report.state != Unavailable ==> StoodTogether(histories, old(reader.disk))
    ensures report.state == Unavailable ==> report.timestamps == map[]
    ensures report.state != Unavailable ==> required != {} && Projects(report) && |report.items| == |nodes|
    ensures report.state != Unavailable ==> forall i | 0 <= i < |nodes| ::
              report.items[i].node == nodes[i] && AnswerFits(required, HistoryOf(histories, nodes[i]), maxRuns, report.items[i].coverage)
  {
    hide AnswerFits, RowsProject, Collected, HistoryOf, ReadThrough, StoodTogether;
    report := Report(Unavailable, [], map[]);
    if required == {} {
      return;
    }
    var items: seq<Item> := [];
    var timestamps: map<string, int> := map[];
    var rows := false;
    NothingCollected(required, nodes, histories, maxRuns);
    for i := 0 to |nodes|
      invariant reader.Valid() && reader.disk == old(reader.disk) && reader.departed == old(reader.departed)
      invariant Collected(required, nodes, histories, maxRuns, i, items, timestamps)
      invariant !rows ==> timestamps == map[]
    {
      var history := HistoryOf(histories, nodes[i]);
      var ok, timestamp := SelectRun(required, history, maxRuns);
      if !ok {
        return;
      }
      CollectNext(required, nodes, histories, maxRuns, i, items, timestamps, Item(nodes[i], history == [], timestamp));
      items := items + [Item(nodes[i], history == [], timestamp)];
      if timestamp.Some? {
        timestamps := timestamps[nodes[i] := timestamp.value];
      }
      rows := rows || history != [];
    }
    var stood := reader.Unchanged();
    if !stood {
      return;
    }
    RunsStood(histories, reader.files, old(reader.disk));
    report := Report(if rows then Queried else EmptyReport, items, timestamps);
    AllCollected(required, nodes, histories, maxRuns, items, timestamps);
  }

  /** The rows and the projection after the first i nodes. */
  ghost predicate Collected(required: set<string>, nodes: seq<string>, histories: map<string, seq<Run>>, maxRuns: nat, i: nat,
                            items: seq<Item>, timestamps: map<string, int>)
    requires i <= |nodes|
  {
    && |items| == i && RowsProject(items, timestamps)
    && forall j | 0 <= j < i ::
         items[j].node == nodes[j] && AnswerFits(required, HistoryOf(histories, nodes[j]), maxRuns, items[j].coverage)
  }

  lemma NothingCollected(required: set<string>, nodes: seq<string>, histories: map<string, seq<Run>>, maxRuns: nat)
    ensures Collected(required, nodes, histories, maxRuns, 0, [], map[])
  {
  }

  lemma CollectNext(required: set<string>, nodes: seq<string>, histories: map<string, seq<Run>>, maxRuns: nat, i: nat,
                    items: seq<Item>, timestamps: map<string, int>, item: Item)
    requires (forall a, b | 0 <= a < b < |nodes| :: nodes[a] != nodes[b]) && (forall a | 0 <= a < |nodes| :: nodes[a] != "")
    requires i < |nodes| && Collected(required, nodes, histories, maxRuns, i, items, timestamps)
    requires item.node == nodes[i] && AnswerFits(required, HistoryOf(histories, nodes[i]), maxRuns, item.coverage)
    ensures Collected(required, nodes, histories, maxRuns, i + 1, items + [item],
                      if item.coverage.Some? then timestamps[item.node := item.coverage.value] else timestamps)
    ensures HistoryOf(histories, nodes[i]) == [] ==> item.coverage.None?
  {
    if item.coverage.Some? {
      AnswerPositive(required, HistoryOf(histories, nodes[i]), maxRuns, item.coverage);
    }
    hide AnswerFits, HistoryOf, RowsProject;
    assert item.node !in NodesOf(items) by {
      assert forall j | 0 <= j < i :: items[j].node != nodes[i];
    }
    RowAdds(items, timestamps, item);
    hide NodesOf;
  }

  lemma AnswerPositive(required: set<string>, history: seq<Run>, maxRuns: nat, coverage: Option<int>)
    requires AnswerFits(required, history, maxRuns, coverage) && coverage.Some?
    ensures coverage.value > 0 && history != []
  {
    hide Judge;
  }

  lemma AllCollected(required: set<string>, nodes: seq<string>, histories: map<string, seq<Run>>, maxRuns: nat, items: seq<Item>,
                     timestamps: map<string, int>)
    requires Collected(required, nodes, histories, maxRuns, |nodes|, items, timestamps)
    ensures |items| == |nodes| && RowsProject(items, timestamps)
    ensures forall j | 0 <= j < |nodes| ::
         items[j].node == nodes[j] && AnswerFits(required, HistoryOf(histories, nodes[j]), maxRuns, items[j].coverage)
  {
  }

  lemma NoRows()
    ensures RowsProject([], map[]) && NodesOf([]) == {}
  {
  }

  /** coverage_timestamps: rebuild the map from the rows and compare. Every report that was read is accepted. */
  method CoverageTimestamps(r: Report) returns (timestamps: Option<map<string, int>>)
    ensures timestamps.Some? <==> r.state != Unavailable && Projects(r)
    ensures timestamps.Some? ==> timestamps.value == r.timestamps
  {
    hide RowsProject;
    if r.state == Unavailable {
      return None;
    }
    var seen: set<string> := {};
    var rebuilt: map<string, int> := map[];
    NoRows();
    for i := 0 to |r.items|
      invariant RowsProject(r.items[..i], rebuilt) && seen == NodesOf(r.items[..i])
    {
      var item := r.items[i];
      assert r.items[..i + 1] == r.items[..i] + [item];
      if item.node == "" || item.node in seen || (item.coverage.Some? && item.coverage.value <= 0) {
        BadRow(r, i);
        return None;
      }
      RowAdds(r.items[..i], rebuilt, item);
      seen := seen + {item.node};
      if item.coverage.Some? {
        rebuilt := rebuilt[item.node := item.coverage.value];
      }
    }
    assert r.items[..|r.items|] == r.items;
    if RowsProject(r.items, r.timestamps) {
      ProjectionIsUnique(r.items, rebuilt, r.timestamps);
    }
    if r.timestamps != rebuilt || (r.state == EmptyReport && rebuilt != map[]) {
      return None;
    }
    timestamps := Some(rebuilt);
  }

  lemma BadRow(r: Report, i: nat)
    requires i < |r.items|
    requires r.items[i].node == "" || r.items[i].node in NodesOf(r.items[..i]) || (r.items[i].coverage.Some? && r.items[i].coverage.value <= 0)
    ensures !RowsProject(r.items, r.timestamps)
  {
  }
}
