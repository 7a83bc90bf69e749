/** The seven stores of one run and their idempotent writers (validation-tests/storage/ingest.py,
    validation-tests/nccl/ingest.py, validation-tests/dltest/ingest.py, cval/storage/ingest.py). */
module RunStores {
  import opened Wrappers
  import opened Generations

  /** A consolidated storage or NCCL row; values stands for all metric columns. */
  datatype HealthRow = HealthRow(node: string, timestamp: int, runId: string, values: string)

  datatype StatusRow = StatusRow(node: string, test: string, timestamp: int, result: string, image: string, pytorch: string, cuda: string)

  /** What one authorized result brings: which tests pass, their rows, and the four status rows. */
  datatype Evidence = Evidence(node: string, timestamp: int, runId: string, storagePasses: bool, ncclPasses: bool, dlPasses: bool,
                               storageValues: string, ncclValues: string, dlRows: map<Component, string>, dlDirectory: string,
                               statuses: map<string, string>, image: string, pytorch: string, cuda: string)
  {
    function StorageRow(): HealthRow {
      HealthRow(node, timestamp, runId, storageValues)
    }

    function NcclRow(): HealthRow {
      HealthRow(node, timestamp, runId, ncclValues)
    }

    function Status(test: string): string {
      if test in statuses then statuses[test] else "incomplete"
    }

    function StatusRowOf(test: string): StatusRow {
      StatusRow(node, test, timestamp, Status(test), image, pytorch, cuda)
    }

    /** The fixed rows of one run, one per layer and one for the whole. */
    function StatusRows(): seq<StatusRow> {
      [StatusRowOf("storage"), StatusRowOf("nccl"), StatusRowOf("dltest"), StatusRowOf("all")]
    }
  }

  /** The committed contents; generation stamps and update times are left aside. */
  datatype Contents = Contents(storage: seq<HealthRow>, nccl: seq<HealthRow>, dl: map<Component, Content>, validation: seq<StatusRow>)

  predicate SameRun(a: HealthRow, b: HealthRow) {
    a.runId == b.runId || (a.node == b.node && a.timestamp == b.timestamp)
  }

  /** The existing rows of a run, by run id or by node and timestamp. */
  function Matching(rows: seq<HealthRow>, row: HealthRow): seq<HealthRow> {
    if rows == [] then []
    else Matching(rows[..|rows| - 1], row) + (if SameRun(rows[|rows| - 1], row) then [rows[|rows| - 1]] else [])
  }

  /** Append, accept an identical row, or refuse. */
  function Appended(rows: seq<HealthRow>, row: HealthRow): Option<seq<HealthRow>> {
    if Matching(rows, row) == [] then Some(rows + [row])
    else if Matching(rows, row) == [row] then Some(rows)
    else None
  }

  function RowsOfRun(rows: seq<StatusRow>, node: string, timestamp: int): seq<StatusRow> {
    if rows == [] then []
    else
      var last := rows[|rows| - 1];
      RowsOfRun(rows[..|rows| - 1], node, timestamp) + (if last.node == node && last.timestamp == timestamp then [last] else [])
  }

  /** add_validation_run_results: append all four rows, accept exactly those, or refuse. */
  function AppendedStatuses(rows: seq<StatusRow>, e: Evidence): Option<seq<StatusRow>> {
    var existing := RowsOfRun(rows, e.node, e.timestamp);
    if existing == [] then Some(rows + e.StatusRows())
    else if multiset(existing) == multiset(e.StatusRows()) then Some(rows)
    else None
  }

  /** One DL store after its replacing transaction for this run. */
  function DlWritten(content: Content, e: Evidence, c: Component): Content {
    Content(content.rows[e.runId := if c in e.dlRows then e.dlRows[c] else ""], content.receipts[e.runId := e.dlDirectory])
  }

  /** A run's row is found once and identical after every accepted append: writing again changes nothing. */
  lemma AppendOnce(rows: seq<HealthRow>, row: HealthRow)
    requires Appended(rows, row).Some?
    ensures Matching(Appended(rows, row).value, row) == [row]
    ensures Appended(Appended(rows, row).value, row) == Appended(rows, row)
  {
  }

  lemma {:induction false} RowsOfRunAppend(a: seq<StatusRow>, b: seq<StatusRow>, node: string, timestamp: int)
    ensures RowsOfRun(a + b, node, timestamp) == RowsOfRun(a, node, timestamp) + RowsOfRun(b, node, timestamp)
    decreases |b|
  {
    if b == [] {
      assert a + b == a;
    } else {
      assert (a + b)[..|a + b| - 1] == a + b[..|b| - 1];
      RowsOfRunAppend(a, b[..|b| - 1], node, timestamp);
    }
  }

  lemma {:induction false} AllOfRun(rows: seq<StatusRow>, node: string, timestamp: int)
    requires forall r | r in rows :: r.node == node && r.timestamp == timestamp
    ensures RowsOfRun(rows, node, timestamp) == rows
  {
    if rows != [] {
      assert rows[|rows| - 1] in rows;
      AllOfRun(rows[..|rows| - 1], node, timestamp);
      assert rows == rows[..|rows| - 1] + [rows[|rows| - 1]];
    }
  }

  /** The four status rows stand exactly once after every accepted append. */
  lemma StatusesOnce(rows: seq<StatusRow>, e: Evidence)
    requires AppendedStatuses(rows, e).Some?
    ensures multiset(RowsOfRun(AppendedStatuses(rows, e).value, e.node, e.timestamp)) == multiset(e.StatusRows())
    ensures AppendedStatuses(AppendedStatuses(rows, e).value, e) == AppendedStatuses(rows, e)
  {
    if RowsOfRun(rows, e.node, e.timestamp) == [] {
      RowsOfRunAppend(rows, e.StatusRows(), e.node, e.timestamp);
      AllOfRun(e.StatusRows(), e.node, e.timestamp);
    }
  }

  lemma DlWrittenTwice(content: Content, e: Evidence, c: Component)
    ensures DlWritten(DlWritten(content, e, c), e, c) == DlWritten(content, e, c)
  {
  }

  predicate HealthNew(passes: bool, before: seq<HealthRow>, row: HealthRow, now: seq<HealthRow>) {
    if passes then Appended(before, row) == Some(now) else now == before
  }

  predicate HealthBetween(passes: bool, before: seq<HealthRow>, row: HealthRow, now: seq<HealthRow>) {
    now == before || HealthNew(passes, before, row, now)
  }

  predicate DlNew(before: map<Component, Content>, e: Evidence, now: map<Component, Content>) {
    now.Keys == before.Keys && forall c | c in before :: now[c] == if e.dlPasses then DlWritten(before[c], e, c) else before[c]
  }

  predicate DlBetween(before: map<Component, Content>, e: Evidence, now: map<Component, Content>) {
    now.Keys == before.Keys && forall c | c in before :: now[c] == before[c] || (e.dlPasses && now[c] == DlWritten(before[c], e, c))
  }

  /** Every raw store owned by a passing test holds this run, the others are as before. */
  predicate RawNew(before: Contents, e: Evidence, now: Contents) {
    && HealthNew(e.storagePasses, before.storage, e.StorageRow(), now.storage)
    && HealthNew(e.ncclPasses, before.nccl, e.NcclRow(), now.nccl)
    && DlNew(before.dl, e, now.dl)
  }

  /** What one uninterrupted run leaves. */
  predicate Recorded(before: Contents, e: Evidence, now: Contents) {
    RawNew(before, e, now) && AppendedStatuses(before.validation, e) == Some(now.validation)
  }

  /** What crashes and failures may leave: any subset of the raw stores, and the status rows only after all of them. */
  predicate Between(before: Contents, e: Evidence, now: Contents) {
    && HealthBetween(e.storagePasses, before.storage, e.StorageRow(), now.storage)
    && HealthBetween(e.ncclPasses, before.nccl, e.NcclRow(), now.nccl)
    && DlBetween(before.dl, e, now.dl)
    && (now.validation == before.validation || Recorded(before, e, now))
  }

  /** The raw evidence of this run is in place: rows found once, as they should be. */
  predicate RawCommitted(e: Evidence, s: Contents) {
    && (e.storagePasses ==> Matching(s.storage, e.StorageRow()) == [e.StorageRow()])
    && (e.ncclPasses ==> Matching(s.nccl, e.NcclRow()) == [e.NcclRow()])
    && (e.dlPasses ==> forall c | c in s.dl :: s.dl[c] == DlWritten(s.dl[c], e, c))
  }

  /** Status rows of this run imply its raw evidence. */
  predicate StatusImpliesRaw(e: Evidence, s: Contents) {
    RowsOfRun(s.validation, e.node, e.timestamp) != [] ==> RawCommitted(e, s)
  }

  lemma RecordedIsUnique(before: Contents, e: Evidence, a: Contents, b: Contents)
    requires Recorded(before, e, a) && Recorded(before, e, b)
    ensures a == b
  {
    assert a.dl == b.dl;
  }

  lemma HealthAgain(passes: bool, before: seq<HealthRow>, row: HealthRow, now: seq<HealthRow>, later: seq<HealthRow>)
    requires HealthBetween(passes, before, row, now) && HealthBetween(passes, now, row, later)
    ensures HealthBetween(passes, before, row, later)
    ensures HealthNew(passes, now, row, later) ==> HealthNew(passes, before, row, later)
    ensures HealthNew(passes, before, row, now) ==> HealthNew(passes, before, row, later) && later == now
  {
  }

  lemma DlAgain(before: map<Component, Content>, e: Evidence, now: map<Component, Content>, later: map<Component, Content>)
    requires DlBetween(before, e, now) && DlBetween(now, e, later)
    ensures DlBetween(before, e, later)
    ensures DlNew(now, e, later) ==> DlNew(before, e, later)
    ensures DlNew(before, e, now) ==> DlNew(before, e, later) && later == now
  {
    forall c | c in before ensures DlWritten(DlWritten(before[c], e, c), e, c) == DlWritten(before[c], e, c) {
      DlWrittenTwice(before[c], e, c);
    }
    hide DlWritten;
  }

  /** Attempts compose: what a second attempt may leave, seen from the first, is what one attempt may leave. */
  lemma AttemptsCompose(before: Contents, e: Evidence, now: Contents, later: Contents)
    requires Between(before, e, now) && Between(now, e, later)
    ensures Between(before, e, later)
    ensures Recorded(now, e, later) ==> Recorded(before, e, later)
  {
    HealthAgain(e.storagePasses, before.storage, e.StorageRow(), now.storage, later.storage);
    HealthAgain(e.ncclPasses, before.nccl, e.NcclRow(), now.nccl, later.nccl);
    DlAgain(before.dl, e, now.dl, later.dl);
    if AppendedStatuses(before.validation, e).Some? {
      StatusesOnce(before.validation, e);
    }
    hide HealthNew, HealthBetween, DlNew, DlBetween, AppendedStatuses;
  }

  /** Status rows never outrun the raw stores. */
  lemma StatusStillImpliesRaw(before: Contents, e: Evidence, now: Contents)
    requires StatusImpliesRaw(e, before) && Between(before, e, now)
    ensures StatusImpliesRaw(e, now)
  {
    if RowsOfRun(now.validation, e.node, e.timestamp) != [] {
      HealthCommitted(e.storagePasses, before.storage, e.StorageRow(), now.storage);
      HealthCommitted(e.ncclPasses, before.nccl, e.NcclRow(), now.nccl);
      forall c | c in before.dl ensures DlWritten(DlWritten(before.dl[c], e, c), e, c) == DlWritten(before.dl[c], e, c) {
        DlWrittenTwice(before.dl[c], e, c);
      }
      hide DlWritten, Matching, Appended, AppendedStatuses, RowsOfRun;
    }
  }

  /** A run has one result: equal evidence, or neither the run id nor the node and timestamp in common. */
  predicate OneResult(e: Evidence, f: Evidence) {
    e == f || (e.runId != f.runId && (e.node != f.node || e.timestamp != f.timestamp))
  }

  /** An attempt for one run keeps the status rows of every run behind its raw stores. */
  lemma OtherStatusesStillImplyRaw(before: Contents, e: Evidence, now: Contents, f: Evidence)
    requires OneResult(e, f) && StatusImpliesRaw(f, before) && Between(before, e, now)
    ensures StatusImpliesRaw(f, now)
  {
    if e == f {
      StatusStillImpliesRaw(before, e, now);
    } else if RowsOfRun(now.validation, f.node, f.timestamp) != [] {
      OtherStatusRows(before.validation, e, f);
      OtherHealthRows(e.storagePasses, before.storage, e.StorageRow(), now.storage, f.StorageRow());
      OtherHealthRows(e.ncclPasses, before.nccl, e.NcclRow(), now.nccl, f.NcclRow());
      forall c | c in before.dl && before.dl[c] == DlWritten(before.dl[c], f, c)
        ensures DlWritten(before.dl[c], e, c) == DlWritten(DlWritten(before.dl[c], e, c), f, c)
      {
        OtherDlRows(before.dl[c], e, f, c);
      }
      hide DlWritten, Matching, AppendedStatuses, RowsOfRun, HealthBetween;
    }
  }

  lemma OtherStatusRows(rows: seq<StatusRow>, e: Evidence, f: Evidence)
    requires e.node != f.node || e.timestamp != f.timestamp
    ensures AppendedStatuses(rows, e).Some? ==>
              RowsOfRun(AppendedStatuses(rows, e).value, f.node, f.timestamp) == RowsOfRun(rows, f.node, f.timestamp)
  {
    hide RowsOfRun, Evidence.StatusRows;
    var added := e.StatusRows();
    OwnStatusRows(e);
    RowsOfRunAppend(rows, added, f.node, f.timestamp);
    NoneOfRun(added, f.node, f.timestamp);
    assert RowsOfRun(rows, f.node, f.timestamp) + [] == RowsOfRun(rows, f.node, f.timestamp);
  }

  lemma OwnStatusRows(e: Evidence)
    ensures forall r | r in e.StatusRows() :: r.node == e.node && r.timestamp == e.timestamp
  {
  }

  lemma {:induction false} NoneOfRun(rows: seq<StatusRow>, node: string, timestamp: int)
    requires forall r | r in rows :: r.node != node || r.timestamp != timestamp
    ensures RowsOfRun(rows, node, timestamp) == []
  {
    if rows != [] {
      NoneOfRun(rows[..|rows| - 1], node, timestamp);
    }
  }

  lemma OtherHealthRows(passes: bool, before: seq<HealthRow>, row: HealthRow, now: seq<HealthRow>, other: HealthRow)
    requires HealthBetween(passes, before, row, now) && !SameRun(row, other)
    ensures Matching(now, other) == Matching(before, other)
  {
    assert (before + [row])[..|before|] == before;
  }

  lemma OtherDlRows(content: Content, e: Evidence, f: Evidence, c: Component)
    requires e.runId != f.runId && content == DlWritten(content, f, c)
    ensures DlWritten(content, e, c) == DlWritten(DlWritten(content, e, c), f, c)
  {
  }

  lemma HealthCommitted(passes: bool, before: seq<HealthRow>, row: HealthRow, now: seq<HealthRow>)
    requires passes ==> HealthBetween(passes, before, row, now)
    ensures passes && HealthNew(passes, before, row, now) ==> Matching(now, row) == [row]
    ensures passes && Matching(before, row) == [row] ==> Matching(now, row) == [row]
  {
  }
}
