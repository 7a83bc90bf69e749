/** Metric rows, first-wins deduplication and table updates (validation-tests/dltest/ingest.py). */
module MetricRows {
  import opened Wrappers
  import opened Generations

  type Directory = seq<string>

  /** The primary key of every metric table. */
  datatype RowKey = RowKey(runKey: string, rank: int, taskGroup: string, taskName: string, metricName: string)

  /** The remaining columns; details stands for those that are only copied. */
  datatype Row = Row(sampleDir: Directory, details: string, value: Option<real>, sourceFile: string)

  datatype MetricRow = MetricRow(key: RowKey, row: Row)

  type Table = map<RowKey, Row>

  /** A rank file with its classified rows. */
  datatype RankFile = RankFile(runKey: string, sampleDir: Directory, rows: map<Component, seq<MetricRow>>)

  /** standard_rows and overlap_metric_rows copy the file's run key and directory into each row. */
  ghost predicate FileFits(root: Directory, f: RankFile) {
    && f.rows.Keys == COMPONENTS && f.runKey != "" && f.sampleDir != [] && root <= f.sampleDir
    && forall c, r | c in f.rows && r in f.rows[c] :: r.key.runKey == f.runKey && r.row.sampleDir == f.sampleDir
  }

  ghost predicate FilesFit(root: Directory, files: seq<RankFile>) {
    forall f | f in files :: FileFits(root, f)
  }

  function RunKeys(files: seq<RankFile>): set<string> {
    set f | f in files :: f.runKey
  }

  /** classify_rank_files, one component: file by file, in order. */
  function Classified(files: seq<RankFile>, c: Component): seq<MetricRow> {
    if files == [] then []
    else Classified(files[..|files| - 1], c) + (if c in files[|files| - 1].rows then files[|files| - 1].rows[c] else [])
  }

  /** run_receipts: the last file of a run key decides. */
  function ReceiptsOf(files: seq<RankFile>): (m: map<string, Directory>)
    ensures m.Keys == RunKeys(files)
  {
    if files == [] then map[]
    else
      var last := files[|files| - 1];
      assert files == files[..|files| - 1] + [last];
      ReceiptsOf(files[..|files| - 1])[last.runKey := last.sampleDir]
  }

  function KeysOf(rows: seq<MetricRow>): set<RowKey> {
    set r | r in rows :: r.key
  }

  function AddFirst(t: Table, r: MetricRow): Table {
    if r.key in t then t else t[r.key := r.row]
  }

  /** The table of first occurrences. */
  function First(rows: seq<MetricRow>): Table {
    if rows == [] then map[] else AddFirst(First(rows[..|rows| - 1]), rows[|rows| - 1])
  }

  /** Insert-or-replace, row by row. */
  function Upsert(t: Table, rows: seq<MetricRow>): Table {
    if rows == [] then t
    else Upsert(t, rows[..|rows| - 1])[rows[|rows| - 1].key := rows[|rows| - 1].row]
  }

  function Without(t: Table, keys: set<string>): Table {
    map k | k in t && k.runKey !in keys :: t[k]
  }

  predicate SameEvidence(a: Row, b: Row) {
    a.(sourceFile := "") == b.(sourceFile := "")
  }

  /** No key carries two different measurements. */
  ghost predicate Agree(rows: seq<MetricRow>) {
    forall i, j | 0 <= i < j < |rows| && rows[i].key == rows[j].key :: SameEvidence(rows[i].row, rows[j].row)
  }

  lemma FirstSnoc(rows: seq<MetricRow>, r: MetricRow)
    ensures First(rows + [r]) == AddFirst(First(rows), r)
  {
  }

  /** Every key of the rows, each with the row that carries it first. */
  lemma {:induction false} FirstIsFirst(rows: seq<MetricRow>)
    ensures First(rows).Keys == KeysOf(rows)
    ensures forall i | 0 <= i < |rows| && rows[i].key !in KeysOf(rows[..i]) :: First(rows)[rows[i].key] == rows[i].row
  {
    if rows != [] {
      var front, last := rows[..|rows| - 1], rows[|rows| - 1];
      assert rows == front + [last];
      FirstIsFirst(front);
      assert KeysOf(rows) == KeysOf(front) + {last.key};
      forall i | 0 <= i < |rows| && rows[i].key !in KeysOf(rows[..i])
        ensures First(rows)[rows[i].key] == rows[i].row
      {
        if i < |front| {
          assert front[..i] == rows[..i] && front[i] == rows[i];
        } else {
          assert rows[..i] == front;
        }
      }
    }
  }

  lemma AddFirstToSum(s: Table, t: Table, r: MetricRow)
    ensures AddFirst(s + t, r) == if r.key in t then s + t else AddFirst(s, r) + t
  {
  }

  lemma {:induction false} FirstOfAppend(a: seq<MetricRow>, b: seq<MetricRow>)
    ensures First(a + b) == First(b) + First(a)
    decreases |b|
  {
    if b == [] {
      assert a + b == a;
    } else {
      var front, last := b[..|b| - 1], b[|b| - 1];
      assert a + b == (a + front) + [last];
      FirstSnoc(a + front, last);
      FirstOfAppend(a, front);
      AddFirstToSum(First(front), First(a), last);
    }
  }

  lemma {:induction false} ClassifiedAppend(a: seq<RankFile>, b: seq<RankFile>, c: Component)
    ensures Classified(a + b, c) == Classified(a, c) + Classified(b, c)
    decreases |b|
  {
    if b == [] {
      assert a + b == a;
    } else {
      assert (a + b)[..|a + b| - 1] == a + b[..|b| - 1];
      ClassifiedAppend(a, b[..|b| - 1], c);
    }
  }

  lemma {:induction false} ReceiptsAppend(a: seq<RankFile>, b: seq<RankFile>)
    ensures ReceiptsOf(a + b) == ReceiptsOf(a) + ReceiptsOf(b)
    decreases |b|
  {
    if b == [] {
      assert a + b == a;
    } else {
      assert (a + b)[..|a + b| - 1] == a + b[..|b| - 1];
      ReceiptsAppend(a, b[..|b| - 1]);
    }
  }

  lemma {:induction false} ClassifiedKeys(root: Directory, files: seq<RankFile>, c: Component)
    requires FilesFit(root, files)
    ensures forall r | r in Classified(files, c) :: r.key.runKey in RunKeys(files) && root <= r.row.sampleDir
  {
    if files != [] {
      var front, last := files[..|files| - 1], files[|files| - 1];
      assert files == front + [last];
      assert FileFits(root, last);
      ClassifiedKeys(root, front, c);
      assert RunKeys(front) <= RunKeys(files);
    }
  }

  lemma FirstInScope(root: Directory, files: seq<RankFile>, c: Component)
    requires FilesFit(root, files)
    ensures forall k | k in First(Classified(files, c)) ::
      k.runKey in RunKeys(files) && root <= First(Classified(files, c))[k].sampleDir
  {
    ClassifiedKeys(root, files, c);
    FirstComesFromRows(Classified(files, c));
  }

  lemma {:induction false} FirstComesFromRows(rows: seq<MetricRow>)
    ensures forall k | k in First(rows) :: MetricRow(k, First(rows)[k]) in rows
  {
    if rows != [] {
      var front, last := rows[..|rows| - 1], rows[|rows| - 1];
      assert rows == front + [last];
      FirstComesFromRows(front);
    }
  }

  predicate DistinctKeys(rows: seq<MetricRow>) {
    forall i, j | 0 <= i < j < |rows| :: rows[i].key != rows[j].key
  }

  lemma UpsertOfSnoc(t: Table, rows: seq<MetricRow>, r: MetricRow)
    ensures Upsert(t, rows + [r]) == Upsert(t, rows)[r.key := r.row]
  {
  }

  lemma AddFreshToSum(s: Table, t: Table, r: MetricRow)
    requires r.key !in t
    ensures (s + t)[r.key := r.row] == s + AddFirst(t, r)
  {
  }

  /** A last row of a fresh key: both sides gain exactly that row. */
  lemma UpsertSnoc(t: Table, front: seq<MetricRow>, last: MetricRow)
    requires Upsert(t, front) == t + First(front)
    requires forall r | r in front :: r.key != last.key
    ensures Upsert(t, front + [last]) == t + First(front + [last])
  {
    hide First, Upsert, AddFirst;
    FirstSnoc(front, last);
    FirstIsFirst(front);
    assert last.key !in KeysOf(front);
    UpsertOfSnoc(t, front, last);
    AddFreshToSum(t, First(front), last);
  }

  /** Inserting deduplicated rows adds exactly the table of first occurrences. */
  lemma {:induction false} UpsertDistinct(t: Table, rows: seq<MetricRow>)
    requires DistinctKeys(rows)
    ensures Upsert(t, rows) == t + First(rows)
  {
    if rows != [] {
      hide First, Upsert;
      var front, last := rows[..|rows| - 1], rows[|rows| - 1];
      assert rows == front + [last];
      assert forall i | 0 <= i < |front| :: front[i] == rows[i];
      UpsertDistinct(t, front);
      UpsertSnoc(t, front, last);
    }
  }

  lemma AgreeWithOne(rows: seq<MetricRow>, r: MetricRow, f: nat)
    requires Agree(rows) && f < |rows| && rows[f].key == r.key
    ensures Agree(rows + [r]) <==> SameEvidence(rows[f].row, r.row)
  {
    hide SameEvidence;
    var both := rows + [r];
    assert both[f] == rows[f] && both[|rows|] == r;
    if SameEvidence(rows[f].row, r.row) {
      forall i, j | 0 <= i < j < |both| && both[i].key == both[j].key ensures SameEvidence(both[i].row, both[j].row) {
        if j < |rows| {
          assert both[i] == rows[i] && both[j] == rows[j];
        } else {
          SameAsOne(rows, i, f, r.row);
        }
      }
    }
  }

  lemma SameAsOne(rows: seq<MetricRow>, i: nat, f: nat, row: Row)
    requires Agree(rows) && f < |rows| && i < |rows| && rows[i].key == rows[f].key && SameEvidence(rows[f].row, row)
    ensures SameEvidence(rows[i].row, row)
  {
  }

  lemma AgreeWithFresh(rows: seq<MetricRow>, r: MetricRow)
    requires Agree(rows) && r.key !in KeysOf(rows)
    ensures Agree(rows + [r])
  {
  }

  lemma AgreeExtends(rows: seq<MetricRow>, r: MetricRow)
    requires Agree(rows)
    ensures r.key !in First(rows) ==> Agree(rows + [r])
    ensures r.key in First(rows) ==> (Agree(rows + [r]) <==> SameEvidence(First(rows)[r.key], r.row))
  {
    hide First, Agree, SameEvidence;
    if r.key in First(rows) {
      FirstComesFromRows(rows);
      var f :| 0 <= f < |rows| && rows[f] == MetricRow(r.key, First(rows)[r.key]);
      AgreeWithOne(rows, r, f);
    } else {
      FirstIsFirst(rows);
      AgreeWithFresh(rows, r);
    }
  }

  lemma AgreePrefix(rows: seq<MetricRow>, n: nat)
    requires n <= |rows| && !Agree(rows[..n])
    ensures !Agree(rows)
  {
  }

  lemma DistinctExtends(rows: seq<MetricRow>, r: MetricRow)
    requires DistinctKeys(rows) && r.key !in First(rows)
    ensures DistinctKeys(rows + [r])
  {
    FirstIsFirst(rows);
    assert forall a | 0 <= a < |rows| :: rows[a] in rows && rows[a].key in KeysOf(rows);
  }

  /** _deduplicate_component_rows, one component: keep first occurrences, refuse contradictions. */
  method Deduplicate(rows: seq<MetricRow>) returns (ok: bool, unique: seq<MetricRow>)
    ensures ok <==> Agree(rows)
    ensures ok ==> DistinctKeys(unique) && First(unique) == First(rows)
  {
    hide First, Agree, DistinctKeys;
    unique := [];
    var prior: map<RowKey, Row> := map[];
    FirstOfNone();
    for i := 0 to |rows|
      invariant prior == First(rows[..i]) == First(unique)
      invariant DistinctKeys(unique) && Agree(rows[..i])
    {
      var r := rows[i];
      assert rows[..i + 1] == rows[..i] + [r];
      FirstSnoc(rows[..i], r);
      AgreeExtends(rows[..i], r);
      if r.key in prior {
        if !SameEvidence(prior[r.key], r.row) {
          AgreePrefix(rows, i + 1);
          return false, [];
        }
      } else {
        FirstSnoc(unique, r);
        DistinctExtends(unique, r);
        unique := unique + [r];
        prior := prior[r.key := r.row];
      }
    }
    assert rows[..|rows|] == rows;
    ok := true;
  }

  lemma FirstOfNone()
    ensures First([]) == map[] && DistinctKeys([]) && Agree([])
  {
  }
}
