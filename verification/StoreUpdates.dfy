/** One metric store across a rebuild: receipt migration, the shared write transaction and the closed
    form that any number of batches adds up to (validation-tests/dltest/ingest.py). */
module StoreUpdates {
  import opened Wrappers
  import opened Generations
  import opened MetricRows

  type Receipts = map<string, Directory>

  datatype Mark = Mark(id: string, state: GenerationState)

  /** A database file; the two tables may not have been created yet. */
  datatype Store = Store(rows: Option<Table>, receipts: Option<Receipts>, migrated: bool, mark: Option<Mark>)

  const NO_STORE := Store(None, None, false, None)

  function RowsOf(s: Store): Table {
    if s.rows.Some? then s.rows.value else map[]
  }

  function ReceiptsIn(s: Store): Receipts {
    if s.receipts.Some? then s.receipts.value else map[]
  }

  function TableKeys(t: Table): set<string> {
    set k | k in t :: k.runKey
  }

  /** _stored_run_keys. */
  function StoredKeys(s: Store): set<string> {
    if s.rows.None? then {} else if s.receipts.Some? then s.receipts.value.Keys else TableKeys(s.rows.value)
  }

  /** The run keys a migrated store records: its receipts, and its rows when it was never migrated. */
  function RecordedKeys(s: Store): set<string> {
    ReceiptsIn(s).Keys + (if s.migrated then {} else TableKeys(RowsOf(s)))
  }

  /** _run_keys_in_scope: a row or a receipt lies below the scanned root. */
  function InScope(root: Directory, s: Store): set<string> {
    (set k | k in RowsOf(s) && root <= RowsOf(s)[k].sampleDir :: k.runKey)
    + (set k | k in ReceiptsIn(s) && root <= ReceiptsIn(s)[k])
  }

  /** The one-off backfill: existing receipts stay, every other stored run gets one of its rows' directories. */
  ghost predicate Backfilled(t: Table, before: Receipts, after: Receipts) {
    && after.Keys == before.Keys + TableKeys(t)
    && (forall k | k in before :: after[k] == before[k])
    && (forall k | k in after && k !in before :: exists key :: key in t && key.runKey == k && t[key].sampleDir == after[k])
  }

  ghost predicate Migration(s: Store, base: Receipts) {
    if s.migrated then base == ReceiptsIn(s) else Backfilled(RowsOf(s), ReceiptsIn(s), base)
  }

  /** Receipts of a transaction: the given ones, then the directory of each row's run by default. */
  function WithDefaults(given: Receipts, rows: seq<MetricRow>): Receipts {
    if rows == [] then given
    else
      var last := rows[|rows| - 1];
      var r := WithDefaults(given, rows[..|rows| - 1]);
      if last.key.runKey in r then r else r[last.key.runKey := last.row.sampleDir]
  }

  /** A committed transaction that replaces the given run keys. */
  function Written(s: Store, base: Receipts, rows: seq<MetricRow>, replace: set<string>, given: Receipts, mark: Mark): Store {
    Store(Some(Upsert(Without(RowsOf(s), replace), rows)), Some((base - replace) + WithDefaults(given, rows)), true, Some(mark))
  }

  /** What a store holds once the given files were written, however they were batched. */
  ghost predicate Progress(s0: Store, base: Receipts, s: Store, files: seq<RankFile>, c: Component) {
    && RowsOf(s) == Without(RowsOf(s0), RunKeys(files)) + First(Classified(files, c))
    && if files == [] then ReceiptsIn(s) == ReceiptsIn(s0) && s.migrated == s0.migrated
       else s.migrated && Migration(s0, base) && ReceiptsIn(s) == base + ReceiptsOf(files)
  }

  lemma {:induction false} DefaultsAddNothing(given: Receipts, rows: seq<MetricRow>)
    requires forall r | r in rows :: r.key.runKey in given
    ensures WithDefaults(given, rows) == given
  {
    if rows != [] {
      assert rows[|rows| - 1] in rows;
      DefaultsAddNothing(given, rows[..|rows| - 1]);
    }
  }

  lemma KeysOfAppend(a: seq<RankFile>, b: seq<RankFile>)
    ensures RunKeys(a + b) == RunKeys(a) + RunKeys(b)
  {
  }

  lemma WithoutOfSum(t: Table, a: Table, keys: set<string>)
    requires forall k | k in a :: k.runKey !in keys
    ensures Without(t + a, keys) == Without(t, keys) + a
  {
  }

  lemma WithoutTwice(t: Table, ka: set<string>, kb: set<string>)
    ensures Without(Without(t, ka), kb) == Without(t, ka + kb)
  {
  }

  lemma DisjointSumsCommute(t: Table, a: Table, b: Table)
    requires forall k | k in a :: k !in b
    ensures (t + a) + b == t + (b + a)
  {
  }

  lemma SumsOverDisjointKeys(t: Table, a: Table, b: Table, ka: set<string>, kb: set<string>)
    requires ka !! kb && TableKeys(a) <= ka && TableKeys(b) <= kb
    ensures Without(Without(t, ka) + a, kb) + b == Without(t, ka + kb) + (b + a)
  {
    hide Without;
    WithoutTwice(t, ka, kb);
    assert forall k | k in a :: k.runKey !in kb && k !in b by {
      assert forall k | k in a :: k.runKey in TableKeys(a);
      assert forall k | k in b :: k.runKey in TableKeys(b);
    }
    hide TableKeys;
    WithoutOfSum(Without(t, ka), a, kb);
    DisjointSumsCommute(Without(t, ka + kb), a, b);
  }

  lemma FirstKeysOfFiles(root: Directory, files: seq<RankFile>, c: Component)
    requires FilesFit(root, files)
    ensures TableKeys(First(Classified(files, c))) <= RunKeys(files)
  {
    FirstInScope(root, files, c);
  }

  /** Two batches with different run keys leave the rows that one batch of both would. */
  lemma RowsAddUp(root: Directory, t: Table, a: seq<RankFile>, b: seq<RankFile>, c: Component)
    requires FilesFit(root, a) && FilesFit(root, b) && RunKeys(a) !! RunKeys(b)
    ensures Without(Without(t, RunKeys(a)) + First(Classified(a, c)), RunKeys(b)) + First(Classified(b, c))
         == Without(t, RunKeys(a + b)) + First(Classified(a + b, c))
  {
    FirstKeysOfFiles(root, a, c);
    FirstKeysOfFiles(root, b, c);
    KeysOfAppend(a, b);
    ClassifiedAppend(a, b, c);
    FirstOfAppend(Classified(a, c), Classified(b, c));
    hide First, Classified, TableKeys, Without, RunKeys, FilesFit;
    SumsOverDisjointKeys(t, First(Classified(a, c)), First(Classified(b, c)), RunKeys(a), RunKeys(b));
  }

  lemma ReplacedReceipts(base: Receipts, b: seq<RankFile>)
    ensures (base - RunKeys(b)) + ReceiptsOf(b) == base + ReceiptsOf(b)
  {
  }

  lemma ReceiptsAddUp(base: Receipts, a: seq<RankFile>, b: seq<RankFile>)
    ensures (base + ReceiptsOf(a)) + ReceiptsOf(b) == base + ReceiptsOf(a + b)
  {
    ReceiptsAppend(a, b);
    hide ReceiptsOf;
  }

  lemma WrittenBatch(root: Directory, s: Store, base: Receipts, rows: seq<MetricRow>, batch: seq<RankFile>, c: Component, mark: Mark)
    requires FilesFit(root, batch) && DistinctKeys(rows) && First(rows) == First(Classified(batch, c))
    ensures var w := Written(s, base, rows, RunKeys(batch), ReceiptsOf(batch), mark);
      && RowsOf(w) == Without(RowsOf(s), RunKeys(batch)) + First(Classified(batch, c))
      && ReceiptsIn(w) == base + ReceiptsOf(batch)
  {
    UpsertDistinct(Without(RowsOf(s), RunKeys(batch)), rows);
    FirstIsFirst(rows);
    FirstKeysOfFiles(root, batch, c);
    forall r | r in rows ensures r.key.runKey in ReceiptsOf(batch) {
      assert r.key in KeysOf(rows);
      assert r.key in First(Classified(batch, c));
    }
    hide First, Classified, Without, RunKeys, FilesFit;
    DefaultsAddNothing(ReceiptsOf(batch), rows);
    ReplacedReceipts(base, batch);
  }

  /** One more batch of fresh run keys advances the closed form. */
  lemma BatchAdvances(root: Directory, s0: Store, base: Receipts, s: Store, next: Receipts, rows: seq<MetricRow>,
                      files: seq<RankFile>, batch: seq<RankFile>, c: Component, mark: Mark)
    requires FilesFit(root, files) && FilesFit(root, batch) && RunKeys(files) !! RunKeys(batch) && batch != []
    requires Progress(s0, base, s, files, c) && Migration(s, next)
    requires DistinctKeys(rows) && First(rows) == First(Classified(batch, c))
    ensures Progress(s0, if files == [] then next else base,
                     Written(s, next, rows, RunKeys(batch), ReceiptsOf(batch), mark), files + batch, c)
  {
    hide First, Classified, FilesFit, Upsert, WithDefaults, Backfilled, RunKeys, ReceiptsOf, Without;
    WrittenBatch(root, s, next, rows, batch, c, mark);
    RowsAddUp(root, RowsOf(s0), files, batch, c);
    ProgressBase(s0, base, s, next, files, c);
    ReceiptsAddUp(if files == [] then next else base, files, batch);
  }

  /** The receipts a transaction starts from, relative to the store before the rebuild. */
  lemma ProgressBase(s0: Store, base: Receipts, s: Store, next: Receipts, files: seq<RankFile>, c: Component)
    requires Progress(s0, base, s, files, c) && Migration(s, next)
    ensures var b := if files == [] then next else base; Migration(s0, b) && next == b + ReceiptsOf(files)
  {
    hide First, Classified, Upsert;
    if files == [] {
      NothingToReplace(RowsOf(s0), c);
    }
  }

  lemma NothingToReplace(t: Table, c: Component)
    ensures Without(t, RunKeys([])) + First(Classified([], c)) == t
  {
  }

  /** A full rebuild leaves exactly the discovered runs in scope, and everything else as it was. */
  ghost predicate Rebuilt(root: Directory, s0: Store, s: Store, files: seq<RankFile>, c: Component) {
    var gone := RunKeys(files) + InScope(root, s0);
    && RowsOf(s) == Without(RowsOf(s0), gone) + First(Classified(files, c))
    && ReceiptsIn(s).Keys == (RecordedKeys(s0) - gone) + RunKeys(files)
    && (forall k | k in RunKeys(files) :: ReceiptsIn(s)[k] == ReceiptsOf(files)[k])
    && (forall k | k in ReceiptsIn(s0) && k !in gone :: ReceiptsIn(s)[k] == ReceiptsIn(s0)[k])
    && InScope(root, s) == RunKeys(files)
  }

  lemma {:induction false} ReceiptsLieBelow(root: Directory, files: seq<RankFile>)
    requires FilesFit(root, files)
    ensures forall k | k in ReceiptsOf(files) :: root <= ReceiptsOf(files)[k]
  {
    if files != [] {
      assert files[|files| - 1] in files;
      assert FilesFit(root, files[..|files| - 1]);
      ReceiptsLieBelow(root, files[..|files| - 1]);
    }
  }

  lemma MigrationScope(root: Directory, s: Store, base: Receipts)
    requires Migration(s, base)
    ensures base.Keys == RecordedKeys(s)
    ensures forall k | k in base && root <= base[k] :: k in InScope(root, s)
    ensures forall k | k in ReceiptsIn(s) :: k in base && base[k] == ReceiptsIn(s)[k]
  {
  }

  lemma KeptRows(t: Table, f: Table, valid: set<string>, k: RowKey)
    requires k.runKey !in valid && TableKeys(f) <= valid
    ensures k in Without(t, valid) + f <==> k in t
    ensures k in t ==> (Without(t, valid) + f)[k] == t[k]
  {
  }

  /** Outside the written runs, scope is what it was before the rebuild. */
  lemma ScopeOutside(root: Directory, s0: Store, base: Receipts, s: Store, files: seq<RankFile>, c: Component, k: string)
    requires FilesFit(root, files) && Progress(s0, base, s, files, c) && k !in RunKeys(files)
    ensures k in InScope(root, s) <==> k in InScope(root, s0)
  {
    FirstKeysOfFiles(root, files, c);
    hide First, Classified, RunKeys, FilesFit, TableKeys;
    forall r | r in RowsOf(s) + RowsOf(s0) && r.runKey == k
      ensures r in RowsOf(s) && r in RowsOf(s0) && RowsOf(s)[r] == RowsOf(s0)[r]
    {
      KeptRows(RowsOf(s0), First(Classified(files, c)), RunKeys(files), r);
    }
    ReceiptScopeOutside(root, s0, base, s, files, c, k);
    ScopeOfKey(root, s, k);
    ScopeOfKey(root, s0, k);
  }

  lemma ScopeOfKey(root: Directory, s: Store, k: string)
    ensures k in InScope(root, s) <==>
      (exists r :: r in RowsOf(s) && r.runKey == k && root <= RowsOf(s)[r].sampleDir)
      || (k in ReceiptsIn(s) && root <= ReceiptsIn(s)[k])
  {
  }

  lemma ReceiptScopeOutside(root: Directory, s0: Store, base: Receipts, s: Store, files: seq<RankFile>, c: Component, k: string)
    requires Progress(s0, base, s, files, c) && k !in RunKeys(files)
    ensures k in ReceiptsIn(s0) ==> k in ReceiptsIn(s) && ReceiptsIn(s)[k] == ReceiptsIn(s0)[k]
    ensures k in ReceiptsIn(s) && root <= ReceiptsIn(s)[k] ==> k in InScope(root, s0)
  {
  }

  lemma SameRemoved(t: Table, a: set<string>, b: set<string>)
    requires forall k | k in t :: k.runKey in a <==> k.runKey in b
    ensures Without(t, a) == Without(t, b)
  {
  }

  lemma WrittenNothing(s: Store, base: Receipts, replace: set<string>, mark: Mark)
    ensures var w := Written(s, base, [], replace, map[], mark);
      RowsOf(w) == Without(RowsOf(s), replace) && ReceiptsIn(w) == base - replace
  {
  }

  /** Removing the stale runs in scope completes a full rebuild. */
  lemma FinishRebuilds(root: Directory, s0: Store, base: Receipts, s: Store, next: Receipts, files: seq<RankFile>, c: Component, mark: Mark)
    requires FilesFit(root, files) && Progress(s0, base, s, files, c) && Migration(s, next)
    ensures Rebuilt(root, s0, Written(s, next, [], InScope(root, s) - RunKeys(files), map[], mark), files, c)
  {
    hide First, Classified, RunKeys, FilesFit, TableKeys, Without, InScope, RecordedKeys, Progress, Migration, RowsOf, ReceiptsIn, Written;
    var stale, valid := InScope(root, s) - RunKeys(files), RunKeys(files);
    var w := Written(s, next, [], stale, map[], mark);
    forall k ensures k in valid + stale <==> k in valid + InScope(root, s0) {
      if k !in valid {
        ScopeOutside(root, s0, base, s, files, c, k);
      }
    }
    WrittenNothing(s, next, stale, mark);
    FinishedRows(root, s0, base, s, files, c, stale);
    ProgressBase(s0, base, s, next, files, c);
    FinishedReceipts(root, s0, if files == [] then next else base, next, files, stale);
    FinishedScope(root, s0, w, files, c);
  }

  lemma FinishedRows(root: Directory, s0: Store, base: Receipts, s: Store, files: seq<RankFile>, c: Component, stale: set<string>)
    requires FilesFit(root, files) && Progress(s0, base, s, files, c) && stale !! RunKeys(files)
    requires forall k :: k in RunKeys(files) + stale <==> k in RunKeys(files) + InScope(root, s0)
    ensures Without(RowsOf(s), stale) == Without(RowsOf(s0), RunKeys(files) + InScope(root, s0)) + First(Classified(files, c))
  {
    FirstKeysOfFiles(root, files, c);
    assert forall k | k in First(Classified(files, c)) :: k.runKey in TableKeys(First(Classified(files, c)));
    hide First, Classified, RunKeys, FilesFit, TableKeys, Without, InScope;
    WithoutOfSum(Without(RowsOf(s0), RunKeys(files)), First(Classified(files, c)), stale);
    WithoutTwice(RowsOf(s0), RunKeys(files), stale);
    SameRemoved(RowsOf(s0), RunKeys(files) + stale, RunKeys(files) + InScope(root, s0));
  }

  lemma FinishedReceipts(root: Directory, s0: Store, base: Receipts, next: Receipts, files: seq<RankFile>, stale: set<string>)
    requires Migration(s0, base) && next == base + ReceiptsOf(files) && stale !! RunKeys(files)
    requires forall k :: k in RunKeys(files) + stale <==> k in RunKeys(files) + InScope(root, s0)
    ensures var gone := RunKeys(files) + InScope(root, s0);
      && (next - stale).Keys == (RecordedKeys(s0) - gone) + RunKeys(files)
      && (forall k | k in RunKeys(files) :: (next - stale)[k] == ReceiptsOf(files)[k])
      && (forall k | k in ReceiptsIn(s0) && k !in gone :: (next - stale)[k] == ReceiptsIn(s0)[k])
      && (forall k | k in next - stale && k !in RunKeys(files) :: !(root <= (next - stale)[k]))
  {
  }

  lemma FinishedScope(root: Directory, s0: Store, w: Store, files: seq<RankFile>, c: Component)
    requires FilesFit(root, files)
    requires RowsOf(w) == Without(RowsOf(s0), RunKeys(files) + InScope(root, s0)) + First(Classified(files, c))
    requires forall k | k in RunKeys(files) :: k in ReceiptsIn(w) && ReceiptsIn(w)[k] == ReceiptsOf(files)[k]
    requires forall k | k in ReceiptsIn(w) && k !in RunKeys(files) :: !(root <= ReceiptsIn(w)[k])
    ensures InScope(root, w) == RunKeys(files)
  {
    FirstInScope(root, files, c);
    ReceiptsLieBelow(root, files);
    forall k ensures k in InScope(root, w) <==> k in RunKeys(files) {
      ScopeOfKey(root, w, k);
      ScopeOfKey(root, s0, k);
    }
  }

  /** An incremental rebuild replaces the processed runs only; no receipt disappears. */
  ghost predicate Extended(s0: Store, s: Store, files: seq<RankFile>, c: Component) {
    && RowsOf(s) == Without(RowsOf(s0), RunKeys(files)) + First(Classified(files, c))
    && ReceiptsIn(s).Keys == RecordedKeys(s0) + RunKeys(files)
    && (forall k | k in RunKeys(files) :: ReceiptsIn(s)[k] == ReceiptsOf(files)[k])
    && (forall k | k in ReceiptsIn(s0) && k !in RunKeys(files) :: ReceiptsIn(s)[k] == ReceiptsIn(s0)[k])
  }

  /** _initialize_existing_dl_state, one store. */
  ghost predicate Initialized(s0: Store, s1: Store) {
    RowsOf(s1) == RowsOf(s0) && s1.receipts.Some? && s1.migrated && Migration(s0, ReceiptsIn(s1))
  }

  lemma ProgressExtends(s0: Store, s1: Store, base: Receipts, s: Store, files: seq<RankFile>, c: Component)
    requires s1 == s0 || Initialized(s0, s1)
    requires Progress(s1, base, s, files, c) && s.migrated
    ensures Extended(s0, s, files, c)
  {
    hide First, Classified;
    var b := if files == [] then ReceiptsIn(s) else base;
    ProgressBase(s1, base, s, ReceiptsIn(s), files, c);
    MigrationScope([], s1, b);
    if s1 != s0 {
      MigrationScope([], s0, ReceiptsIn(s1));
    }
  }

  /** What a rebuild may do: touch these runs, and remove the receipts of those. */
  datatype Allowance = Allowance(touched: set<string>, removed: set<string>)

  /** Rows and receipts of untouched runs stand, and no other receipt is removed. */
  ghost predicate StoreSpared(s: Store, t: Store, a: Allowance) {
    && Without(RowsOf(t), a.touched) == Without(RowsOf(s), a.touched)
    && (forall k | k in ReceiptsIn(s) && k !in a.touched :: k in ReceiptsIn(t) && ReceiptsIn(t)[k] == ReceiptsIn(s)[k])
    && (forall k | k in ReceiptsIn(s) && k !in a.removed :: k in ReceiptsIn(t))
  }

  lemma {:induction false} DefaultsKeys(given: Receipts, rows: seq<MetricRow>)
    ensures given.Keys <= WithDefaults(given, rows).Keys
    ensures forall k | k in WithDefaults(given, rows) && k !in given :: exists r :: r in rows && r.key.runKey == k
  {
    if rows != [] {
      DefaultsKeys(given, rows[..|rows| - 1]);
    }
  }

  /** A transaction spares what its replaced and written runs allow. */
  lemma TransactionSpares(s: Store, base: Receipts, rows: seq<MetricRow>, replace: set<string>, given: Receipts, mark: Mark, a: Allowance)
    requires Migration(s, base) && replace <= a.touched && given.Keys <= a.touched && replace - given.Keys <= a.removed
    requires DistinctKeys(rows) && forall r | r in rows :: r.key.runKey in a.touched
    ensures StoreSpared(s, Written(s, base, rows, replace, given, mark), a)
  {
    WrittenSpares(s, base, rows, replace, given, mark, a.touched);
    DefaultsKeys(given, rows);
    hide Upsert, WithDefaults, Without;
  }

  /** No transaction touches rows of other runs. */
  lemma WrittenSpares(s: Store, base: Receipts, rows: seq<MetricRow>, replace: set<string>, given: Receipts, mark: Mark, spare: set<string>)
    requires replace <= spare && DistinctKeys(rows) && (forall r | r in rows :: r.key.runKey in spare)
    ensures Without(RowsOf(Written(s, base, rows, replace, given, mark)), spare) == Without(RowsOf(s), spare)
  {
    UpsertDistinct(Without(RowsOf(s), replace), rows);
    FirstIsFirst(rows);
    hide First, Upsert;
    assert forall k | k in First(rows) :: k.runKey in spare;
  }
}
