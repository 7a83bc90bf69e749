/** ingest_dltest_results: the batched rebuild of the four DL metric stores (validation-tests/dltest/ingest.py).
    Every transaction may fail or be interrupted; each one commits as a whole. */
module Rebuild {
  import opened Wrappers
  import opened Generations
  import opened MetricRows
  import opened StoreUpdates

  datatype Outcome = Done | Duplicate | Conflict | NoEvidence | PartialStores | MissingTable | UnequalReceipts | Interrupted

  type Stores = map<Component, Store>

  const ORDER: seq<Component> := [NumericalCorrectness, ComputePerformance, CollectivePerformance, OverlapPerformance]

  function At(stores: Stores, c: Component): Store {
    if c in stores then stores[c] else NO_STORE
  }

  predicate DistinctRuns(dirs: seq<seq<RankFile>>) {
    forall i, j | 0 <= i < j < |dirs| :: RunKeys(dirs[i]) !! RunKeys(dirs[j])
  }

  /** The rank files of the run directories that are not wholly complete already. */
  function Selected(dirs: seq<seq<RankFile>>, complete: set<string>): seq<RankFile> {
    if dirs == [] then []
    else Selected(dirs[..|dirs| - 1], complete) + (if RunKeys(dirs[|dirs| - 1]) <= complete then [] else dirs[|dirs| - 1])
  }

  function Discovered(dirs: seq<seq<RankFile>>): seq<RankFile> {
    Selected(dirs, {})
  }

  ghost predicate Published(stores: Stores, id: string) {
    forall c | c in COMPONENTS :: c in stores && stores[c].mark == Some(Mark(id, Complete))
  }

  ghost predicate Unused(stores: Stores, id: string) {
    forall c | c in stores :: stores[c].mark != Some(Mark(id, Complete))
  }

  ghost predicate Spared(before: Stores, now: Stores, spare: Allowance) {
    forall c | c in COMPONENTS :: StoreSpared(At(before, c), At(now, c), spare)
  }

  /** The four stores after writing the given files on top of before. */
  ghost predicate AllProgress(before: Stores, bases: map<Component, Receipts>, now: Stores, files: seq<RankFile>) {
    && bases.Keys == COMPONENTS
    && (files == [] ==> now == before)
    && forall c | c in COMPONENTS :: Progress(At(before, c), bases[c], At(now, c), files, c) && (files != [] ==> c in now && now[c].rows.Some?)
  }

  /** A metric database without its table. */
  predicate TableMissing(stores: Stores) {
    exists c :: c in stores && stores[c].rows.None?
  }

  ghost predicate AllWritten(before: Stores, nexts: map<Component, Receipts>, now: Stores, rows: map<Component, seq<MetricRow>>,
                             replace: map<Component, set<string>>, given: Receipts, mark: Mark)
    requires rows.Keys == COMPONENTS && replace.Keys == COMPONENTS
  {
    && nexts.Keys == COMPONENTS
    && forall c | c in COMPONENTS :: c in now && Migration(At(before, c), nexts[c])
                                     && now[c] == Written(At(before, c), nexts[c], rows[c], replace[c], given, mark)
  }

  ghost predicate AllAgree(files: seq<RankFile>) {
    forall c | c in COMPONENTS :: Agree(Classified(files, c))
  }

  predicate SameContents(before: Stores, now: Stores) {
    forall c | c in COMPONENTS :: At(now, c).(mark := None) == At(before, c).(mark := None)
  }

  predicate EqualKeys(stores: Stores) {
    forall c, d | c in COMPONENTS && d in COMPONENTS :: StoredKeys(At(stores, c)) == StoredKeys(At(stores, d))
  }

  /** The run keys that an incremental rebuild skips: recorded in all four stores. */
  function Skippable(stores: Stores, onlyMissing: bool): set<string> {
    if onlyMissing then
      RecordedKeys(At(stores, ORDER[0])) * RecordedKeys(At(stores, ORDER[1]))
      * RecordedKeys(At(stores, ORDER[2])) * RecordedKeys(At(stores, ORDER[3]))
    else {}
  }

  /** The runs whose rows a rebuild may touch. */
  function Touchable(root: Directory, stores: Stores, dirs: seq<seq<RankFile>>, onlyMissing: bool): set<string> {
    RunKeys(Discovered(dirs))
    + (if onlyMissing then {} else set c, k | c in COMPONENTS && k in InScope(root, At(stores, c)) :: k)
  }

  /** Whatever happens, only these runs change, and only-missing removes no receipt. */
  function Allowed(root: Directory, stores: Stores, dirs: seq<seq<RankFile>>, onlyMissing: bool): Allowance {
    var touchable := Touchable(root, stores, dirs, onlyMissing);
    Allowance(touchable, if onlyMissing then {} else touchable)
  }

  /** What a completed rebuild promises of one store; every discovered run has its receipt. */
  ghost predicate StoreReconciled(root: Directory, s0: Store, s: Store, dirs: seq<seq<RankFile>>, files: seq<RankFile>,
                                  onlyMissing: bool, c: Component)
  {
    && (if onlyMissing then Extended(s0, s, files, c) else Rebuilt(root, s0, s, files, c))
    && RunKeys(Discovered(dirs)) <= ReceiptsIn(s).Keys
  }

  /** What a completed rebuild promises of all four stores. */
  ghost predicate Reconciled(root: Directory, before: Stores, now: Stores, dirs: seq<seq<RankFile>>, onlyMissing: bool) {
    var files := Selected(dirs, Skippable(before, onlyMissing));
    && DistinctRuns(dirs) && AllAgree(files) && EqualKeys(now)
    && forall c | c in COMPONENTS :: c in now && StoreReconciled(root, At(before, c), now[c], dirs, files, onlyMissing, c)
  }

  class Databases {
    var stores: Stores

    constructor ()
      ensures stores == map[]
    {
      stores := map[];
    }

    /** The INSERT OR IGNORE migration; which of a run's directories it keeps is left open. */
    method Backfill(t: Table, before: Receipts) returns (after: Receipts)
      ensures Backfilled(t, before, after)
    {
      after := before;
      var todo := t.Keys;
      while todo != {}
        invariant todo <= t.Keys
        invariant after.Keys == before.Keys + (set k | k in t.Keys - todo :: k.runKey)
        invariant forall k | k in before :: after[k] == before[k]
        invariant forall k | k in after && k !in before :: exists key :: key in t && key.runKey == k && t[key].sampleDir == after[k]
        decreases |todo|
      {
        var key :| key in todo;
        todo := todo - {key};
        if key.runKey !in after {
          after := after[key.runKey := t[key].sampleDir];
        }
      }
    }

    /** write_standard_db and write_overlap_db: create the tables, then the shared transaction. */
    method WriteMetricRows(c: Component, rows: seq<MetricRow>, replace: set<string>, given: Receipts, mark: Mark)
      returns (ok: bool, ghost base: Receipts)
      modifies this
      ensures stores == old(stores) || (c in stores && stores == old(stores)[c := stores[c]])
      ensures ok ==> c in stores && Migration(old(At(stores, c)), base)
                     && stores[c] == Written(old(At(stores, c)), base, rows, replace, given, mark)
      ensures !ok ==> RowsOf(At(stores, c)) == old(RowsOf(At(stores, c))) && At(stores, c).mark == old(At(stores, c).mark)
      ensures !ok ==> ReceiptsIn(At(stores, c)) == old(ReceiptsIn(At(stores, c)))
    {
      hide Upsert, WithDefaults, Without, Backfilled;
      base := map[];
      if * {
        return false, base;
      }
      var s := if c in stores then stores[c] else NO_STORE;
      stores := stores[c := s.(rows := Some(RowsOf(s)), receipts := Some(ReceiptsIn(s)))];
      if * {
        return false, base;
      }
      var known := ReceiptsIn(s);
      if !s.migrated {
        known := Backfill(RowsOf(s), known);
      }
      base := known;
      var table := Without(RowsOf(s), replace);
      var receipts := given;
      NothingWritten(table, given);
      for i := 0 to |rows|
        invariant table == Upsert(Without(RowsOf(s), replace), rows[..i])
        invariant receipts == WithDefaults(given, rows[..i])
        invariant stores == old(stores)[c := s.(rows := Some(RowsOf(s)), receipts := Some(ReceiptsIn(s)))]
      {
        OneRowMore(Without(RowsOf(s), replace), given, rows, i);
        table := table[rows[i].key := rows[i].row];
        if rows[i].key.runKey !in receipts {
          receipts := receipts[rows[i].key.runKey := rows[i].row.sampleDir];
        }
      }
      assert rows[..|rows|] == rows;
      if exists k :: k in receipts && (k == "" || receipts[k] == []) {
        return false, base;
      }
      if * {
        return false, base;
      }
      stores := stores[c := Store(Some(table), Some((known - replace) + receipts), true, Some(mark))];
      ok := true;
    }

    /** The four writes of _write_dl_rows and _finish_dl_reconciliation, in their fixed order. */
    method WriteAll(rows: map<Component, seq<MetricRow>>, replace: map<Component, set<string>>, given: Receipts, id: string,
                    ghost spare: Allowance)
      returns (ok: bool, ghost nexts: map<Component, Receipts>)
      requires rows.Keys == COMPONENTS && replace.Keys == COMPONENTS && Unused(stores, id)
      requires forall c | c in COMPONENTS :: replace[c] <= spare.touched && replace[c] - given.Keys <= spare.removed && DistinctKeys(rows[c])
      requires given.Keys <= spare.touched && forall c, r | c in COMPONENTS && r in rows[c] :: r.key.runKey in spare.touched
      modifies this
      ensures ok ==> AllWritten(old(stores), nexts, stores, rows, replace, given, Mark(id, InProgress))
      ensures Unused(stores, id) && Spared(old(stores), stores, spare)
    {
      hide Written, DistinctKeys, Unused, Spared, WrittenBefore;
      nexts := map[];
      ghost var before := stores;
      NoneWritten(before, rows, replace, given, Mark(id, InProgress), spare);
      for i := 0 to |ORDER|
        invariant Unused(stores, id) && Spared(before, stores, spare)
        invariant WrittenBefore(before, nexts, stores, rows, replace, given, Mark(id, InProgress), i)
      {
        ghost var prior := stores;
        ghost var base;
        ok, base := WriteMetricRows(ORDER[i], rows[ORDER[i]], replace[ORDER[i]], given, Mark(id, InProgress));
        if !ok {
          FailedWrite(before, prior, stores, ORDER[i], id, spare);
          return false, nexts;
        }
        OneWritten(before, nexts, prior, stores, base, rows, replace, given, id, spare, i);
        nexts := nexts[ORDER[i] := base];
      }
      ok := true;
      AllOrderWritten(before, nexts, stores, rows, replace, given, Mark(id, InProgress));
    }

    /** _deduplicate_component_rows(classify_rank_files(batch)). */
    method DeduplicateAll(batch: seq<RankFile>) returns (ok: bool, unique: map<Component, seq<MetricRow>>)
      ensures ok ==> AllAgree(batch) && unique.Keys == COMPONENTS
      ensures ok ==> forall c | c in COMPONENTS :: DistinctKeys(unique[c]) && First(unique[c]) == First(Classified(batch, c))
      ensures !ok ==> !AllAgree(batch)
    {
      hide Agree, DistinctKeys, First, Classified;
      unique := map[];
      OrderIsComplete();
      for i := 0 to |ORDER|
        invariant forall j | 0 <= j < i :: ORDER[j] in unique && DistinctKeys(unique[ORDER[j]])
        invariant forall j | 0 <= j < i :: Agree(Classified(batch, ORDER[j])) && First(unique[ORDER[j]]) == First(Classified(batch, ORDER[j]))
      {
        var rows;
        ok, rows := Deduplicate(Classified(batch, ORDER[i]));
        if !ok {
          return false, map[];
        }
        unique := unique[ORDER[i] := rows];
      }
      ok := true;
      assert unique.Keys == COMPONENTS;
    }

    /** flush_batch: no earlier batch held any of its run keys. */
    method Flush(root: Directory, batch: seq<RankFile>, id: string, ghost start: Stores, ghost before: Stores,
                 ghost bases: map<Component, Receipts>, ghost done: seq<RankFile>, ghost spare: Allowance)
      returns (outcome: Outcome, ghost nexts: map<Component, Receipts>)
      requires FilesFit(root, done) && FilesFit(root, batch) && RunKeys(done) !! RunKeys(batch) && RunKeys(batch) <= spare.touched
      requires AllProgress(before, bases, stores, done) && AllAgree(done) && Unused(stores, id) && Spared(start, stores, spare)
      modifies this
      ensures outcome in {Done, Conflict, Interrupted}
      ensures outcome == Done ==> AllAgree(done + batch) && AllProgress(before, nexts, stores, done + batch)
      ensures outcome == Conflict ==> !AllAgree(done + batch)
      ensures Unused(stores, id) && !Published(stores, id) && Spared(start, stores, spare)
    {
      hide Unused, AllProgress, AllAgree, AllWritten, DistinctKeys, First, Classified, Published, Spared;
      nexts := bases;
      NotPublished(stores, id);
      if batch == [] {
        assert done + batch == done;
        return Done, nexts;
      }
      AgreeTogether(root, done, batch);
      var ok, unique := DeduplicateAll(batch);
      if !ok {
        return Conflict, nexts;
      }
      forall c, r: MetricRow | c in COMPONENTS && r in unique[c] ensures r.key.runKey in spare.touched {
        RowsOfBatch(root, batch, unique[c], c, r);
      }
      var replace := map c | c in COMPONENTS :: RunKeys(batch);
      ghost var prior := stores;
      ghost var written;
      ok, written := WriteAll(unique, replace, ReceiptsOf(batch), id, spare);
      SparedThrough(start, prior, stores, spare);
      NotPublished(stores, id);
      if !ok {
        return Interrupted, nexts;
      }
      nexts := BatchesAdvance(root, before, bases, prior, stores, written, unique, done, batch, id);
      outcome := Done;
    }

    method MigrateStore(c: Component, id: string) returns (ok: bool)
      requires c in stores
      modifies this
      ensures ok ==> c in stores && stores == old(stores)[c := stores[c]] && Initialized(old(stores[c]), stores[c])
      ensures ok ==> stores[c].rows == old(stores[c].rows) && stores[c].mark == Some(Mark(id, InProgress))
      ensures !ok ==> stores == old(stores)
    {
      hide Backfilled;
      var s := stores[c];
      var receipts := ReceiptsIn(s);
      if !s.migrated {
        receipts := Backfill(RowsOf(s), receipts);
      }
      if * {
        return false;
      }
      stores := stores[c := Store(s.rows, Some(receipts), true, Some(Mark(id, InProgress)))];
      ok := true;
    }

    /** _initialize_existing_dl_state: all four tables must exist; then migrate and stamp store by store. */
    method Initialize(id: string) returns (outcome: Outcome)
      requires (forall c | c in COMPONENTS :: c in stores) && Unused(stores, id)
      modifies this
      ensures outcome in {Done, MissingTable, Interrupted} && (outcome == MissingTable <==> TableMissing(old(stores)))
      ensures forall c | c in COMPONENTS :: At(stores, c).rows == At(old(stores), c).rows
      ensures forall c | c in COMPONENTS :: At(stores, c) == At(old(stores), c) || Initialized(At(old(stores), c), At(stores, c))
      ensures outcome == Done ==> forall c | c in COMPONENTS :: c in stores && stores[c].rows.Some? && Initialized(At(old(stores), c), stores[c])
      ensures Unused(stores, id)
    {
      hide Initialized;
      if TableMissing(stores) {
        return MissingTable;
      }
      OrderIsComplete();
      for i := 0 to |ORDER|
        invariant stores.Keys == old(stores).Keys && Unused(stores, id)
        invariant forall j | 0 <= j < i :: Initialized(old(stores)[ORDER[j]], stores[ORDER[j]])
        invariant forall j | i <= j < |ORDER| :: stores[ORDER[j]] == old(stores)[ORDER[j]]
        invariant forall c | c in COMPONENTS :: stores[c].rows == old(stores)[c].rows
      {
        var ok := MigrateStore(ORDER[i], id);
        if !ok {
          return Interrupted;
        }
      }
      outcome := Done;
    }

    /** _finish_dl_reconciliation. */
    method Finish(root: Directory, ghost files: seq<RankFile>, valid: set<string>, id: string, ghost before: Stores,
                  ghost bases: map<Component, Receipts>, ghost start: Stores, ghost spare: Allowance)
      returns (outcome: Outcome)
      requires Spared(start, stores, spare)
      requires FilesFit(root, files) && valid == RunKeys(files) && AllProgress(before, bases, stores, files) && Unused(stores, id)
      requires forall c | c in COMPONENTS :: InScope(root, At(before, c)) <= spare.touched
      requires RunKeys(files) <= spare.touched && spare.touched <= spare.removed
      modifies this
      ensures outcome in {Done, MissingTable, Interrupted} && (outcome == MissingTable ==> files == [] && TableMissing(before))
      ensures outcome == Done ==> forall c | c in COMPONENTS :: c in stores && Rebuilt(root, At(before, c), stores[c], files, c)
      ensures Unused(stores, id) && !Published(stores, id) && Spared(start, stores, spare)
    {
      hide Unused, AllProgress, AllWritten, InScope, RunKeys, Rebuilt, FilesFit, Published, Spared;
      NotPublished(stores, id);
      if TableMissing(stores) {
        TableWasMissing(before, bases, stores, files);
        return MissingTable;
      }
      var stale := map c | c in COMPONENTS :: InScope(root, At(stores, c)) - valid;
      StaleInScope(root, before, bases, stores, files, stale, spare);
      var none: map<Component, seq<MetricRow>> := map c | c in COMPONENTS :: [];
      ghost var prior := stores;
      var ok; ghost var nexts;
      ok, nexts := WriteAll(none, stale, map[], id, spare);
      SparedThrough(start, prior, stores, spare);
      NotPublished(stores, id);
      if !ok {
        return Interrupted;
      }
      AllRebuilt(root, before, bases, prior, stores, nexts, files, stale, none, id);
      outcome := Done;
    }

    /** _finalize_dl_generation. */
    method Finalize(id: string) returns (ok: bool)
      requires forall c | c in COMPONENTS :: c in stores
      modifies this
      ensures ok ==> Published(stores, id)
      ensures stores.Keys == old(stores).Keys && SameContents(old(stores), stores)
    {
      OrderIsComplete();
      for i := 0 to |ORDER|
        invariant stores.Keys == old(stores).Keys && SameContents(old(stores), stores)
        invariant forall j | 0 <= j < i :: stores[ORDER[j]].mark == Some(Mark(id, Complete))
      {
        if * {
          return false;
        }
        stores := stores[ORDER[i] := stores[ORDER[i]].(mark := Some(Mark(id, Complete)))];
      }
      ok := true;
    }

    /** The loop over run directories: collect, flush at every batchRuns run keys, flush the rest. */
    method WriteBatches(root: Directory, dirs: seq<seq<RankFile>>, complete: set<string>, batchRuns: nat, id: string, ghost start: Stores,
                        ghost spare: Allowance)
      returns (outcome: Outcome, valid: set<string>, ghost done: seq<RankFile>, ghost bases: map<Component, Receipts>)
      requires forall d | d in dirs :: FilesFit(root, d)
      requires Unused(stores, id) && Spared(start, stores, spare) && RunKeys(Discovered(dirs)) <= spare.touched
      modifies this
      ensures outcome in {Done, Duplicate, Conflict, Interrupted}
      ensures outcome == Done ==> done == Selected(dirs, complete) && valid == RunKeys(Discovered(dirs)) && FilesFit(root, done)
                                  && DistinctRuns(dirs) && AllAgree(done) && AllProgress(old(stores), bases, stores, done)
      ensures outcome == Duplicate ==> !DistinctRuns(dirs)
      ensures outcome == Conflict ==> !AllAgree(Selected(dirs, complete))
      ensures Unused(stores, id) && !Published(stores, id) && Spared(start, stores, spare)
    {
      hide Unused, AllProgress, AllAgree, Spared, Published, DistinctRuns, RunKeys, FilesFit, Selected, Discovered, Collected;
      ghost var before := stores;
      NotPublished(stores, id);
      var batch: seq<RankFile> := [];
      var batchRunKeys: set<string> := {};
      valid, done, bases := {}, [], map c | c in COMPONENTS :: map[];
      ProgressStarts(before, bases);
      NothingCollected(root, dirs, complete);
      for i := 0 to |dirs|
        invariant Unused(stores, id) && !Published(stores, id) && Spared(start, stores, spare)
        invariant AllProgress(before, bases, stores, done) && AllAgree(done)
        invariant Collected(root, dirs[..i], complete, done, batch, valid) && batchRunKeys == RunKeys(batch)
      {
        var current := dirs[i];
        if RunKeys(current) * valid != {} {
          DuplicateRuns(root, dirs, i, complete, done, batch, valid);
          return Duplicate, valid, done, bases;
        }
        CollectOne(root, dirs, i, complete, done, batch, valid);
        valid := valid + RunKeys(current);
        if !(RunKeys(current) <= complete) {
          KeysOfAppend(batch, current);
          batch := batch + current;
          batchRunKeys := batchRunKeys + RunKeys(current);
          if |batchRunKeys| >= batchRuns {
            ReadyToFlush(root, dirs, i + 1, complete, done, batch, valid, spare);
            outcome, bases := Flush(root, batch, id, start, before, bases, done, spare);
            if outcome != Done {
              return outcome, valid, done, bases;
            }
            CollectedFlush(root, dirs[..i + 1], complete, done, batch, valid);
            done, batch, batchRunKeys := done + batch, [], {};
          }
        }
      }
      assert dirs[..|dirs|] == dirs;
      ReadyToFlush(root, dirs, |dirs|, complete, done, batch, valid, spare);
      outcome, bases := Flush(root, batch, id, start, before, bases, done, spare);
      CollectedFlush(root, dirs, complete, done, batch, valid);
      done := done + batch;
      AllCollected(root, dirs, complete, done, valid);
    }

    /** ingest_dltest_results over the rank files of each run directory in turn. */
    method IngestResults(root: Directory, dirs: seq<seq<RankFile>>, onlyMissing: bool, batchRuns: nat, id: string) returns (outcome: Outcome)
      requires forall d | d in dirs :: FilesFit(root, d)
      requires Unused(stores, id)
      modifies this
      ensures outcome == Done ==> Published(stores, id)
      ensures Published(stores, id) ==> Reconciled(root, old(stores), stores, dirs, onlyMissing)
      ensures Spared(old(stores), stores, Allowed(root, old(stores), dirs, onlyMissing))
      ensures outcome == Duplicate ==> !DistinctRuns(dirs)
      ensures outcome == Conflict ==> !AllAgree(Selected(dirs, Skippable(old(stores), onlyMissing)))
      ensures outcome == UnequalReceipts ==> !EqualKeys(stores)
      ensures outcome == PartialStores <==> onlyMissing && old(stores) != map[] && old(stores).Keys != COMPONENTS
      ensures outcome == NoEvidence ==> RunKeys(Discovered(dirs)) == {} && old(stores).Keys != COMPONENTS
      ensures outcome == MissingTable ==> TableMissing(old(stores)) && (onlyMissing || Discovered(dirs) == [])
      ensures onlyMissing && old(stores).Keys == COMPONENTS && TableMissing(old(stores)) ==> outcome == MissingTable
    {
      hide Unused, AllProgress, AllAgree, RunKeys, FilesFit, Spared, Published, DistinctRuns, Selected, Rebuilt, Extended,
           Initialized, InScope, Reconciled, EqualKeys, SameContents, Touchable, Allowed, RecordedKeys, StoredKeys;
      ghost var start := stores;
      ghost var spare := Allowed(root, stores, dirs, onlyMissing);
      MayTouch(root, stores, dirs, onlyMissing);
      NothingSpared(stores, spare);
      NotPublished(stores, id);
      var existing := stores.Keys;
      if onlyMissing && existing != {} {
        if existing != COMPONENTS {
          return PartialStores;
        }
        outcome := Initialize(id);
        SparedByInitialization(start, stores, spare);
        NotPublished(stores, id);
        if outcome != Done {
          return;
        }
      }
      ghost var before := stores;
      var complete: set<string> := {};
      if onlyMissing {
        complete := StoredKeys(At(stores, ORDER[0])) * StoredKeys(At(stores, ORDER[1]))
                    * StoredKeys(At(stores, ORDER[2])) * StoredKeys(At(stores, ORDER[3]));
        InitializedComplete(start, stores);
      }
      var valid; ghost var files, bases;
      outcome, valid, files, bases := WriteBatches(root, dirs, complete, batchRuns, id, start, spare);
      if outcome != Done {
        return;
      }
      if valid == {} && existing != COMPONENTS {
        return NoEvidence;
      }
      if !onlyMissing {
        outcome := Finish(root, files, valid, id, before, bases, start, spare);
        if outcome != Done {
          return;
        }
      } else {
        SomethingProcessed(dirs, complete, files, valid);
        AllExtended(start, before, bases, stores, files);
      }
      if !EqualKeys(stores) {
        return UnequalReceipts;
      }
      ReconciledBeforeStamps(root, start, stores, dirs, onlyMissing, files);
      ghost var compared := stores;
      var ok := Finalize(id);
      StampsKeep(root, start, compared, stores, dirs, onlyMissing, spare);
      outcome := if ok then Done else Interrupted;
    }
  }

  ghost predicate WrittenAt(before: Stores, base: Receipts, now: Stores, rows: seq<MetricRow>, replace: set<string>,
                            given: Receipts, mark: Mark, c: Component)
  {
    c in now && Migration(At(before, c), base) && now[c] == Written(At(before, c), base, rows, replace, given, mark)
  }

  /** The first i stores of ORDER are written, the others untouched. */
  ghost predicate WrittenBefore(before: Stores, nexts: map<Component, Receipts>, now: Stores, rows: map<Component, seq<MetricRow>>,
                                replace: map<Component, set<string>>, given: Receipts, mark: Mark, i: nat)
    requires rows.Keys == COMPONENTS && replace.Keys == COMPONENTS && i <= |ORDER|
  {
    && (forall j | 0 <= j < i :: ORDER[j] in nexts && ORDER[j] in COMPONENTS
                                 && WrittenAt(before, nexts[ORDER[j]], now, rows[ORDER[j]], replace[ORDER[j]], given, mark, ORDER[j]))
    && (forall j | i <= j < |ORDER| :: At(now, ORDER[j]) == At(before, ORDER[j]))
  }

  lemma NoneWritten(before: Stores, rows: map<Component, seq<MetricRow>>, replace: map<Component, set<string>>, given: Receipts,
                    mark: Mark, spare: Allowance)
    requires rows.Keys == COMPONENTS && replace.Keys == COMPONENTS
    ensures WrittenBefore(before, map[], before, rows, replace, given, mark, 0) && Spared(before, before, spare)
  {
  }

  lemma FailedWrite(before: Stores, prior: Stores, now: Stores, c: Component, id: string, spare: Allowance)
    requires now == prior || (c in now && now == prior[c := now[c]])
    requires RowsOf(At(now, c)) == RowsOf(At(prior, c)) && At(now, c).mark == At(prior, c).mark
    requires ReceiptsIn(At(now, c)) == ReceiptsIn(At(prior, c))
    requires Unused(prior, id) && Spared(before, prior, spare)
    ensures Unused(now, id) && Spared(before, now, spare)
  {
    SparedStill(before, prior, now, c, id, spare);
  }

  lemma OneWritten(before: Stores, nexts: map<Component, Receipts>, prior: Stores, now: Stores, base: Receipts,
                   rows: map<Component, seq<MetricRow>>, replace: map<Component, set<string>>, given: Receipts, id: string,
                   spare: Allowance, i: nat)
    requires rows.Keys == COMPONENTS && replace.Keys == COMPONENTS && i < |ORDER|
    requires replace[ORDER[i]] <= spare.touched && given.Keys <= spare.touched && replace[ORDER[i]] - given.Keys <= spare.removed
    requires DistinctKeys(rows[ORDER[i]]) && (forall r | r in rows[ORDER[i]] :: r.key.runKey in spare.touched)
    requires now == prior || (ORDER[i] in now && now == prior[ORDER[i] := now[ORDER[i]]])
    requires WrittenAt(prior, base, now, rows[ORDER[i]], replace[ORDER[i]], given, Mark(id, InProgress), ORDER[i])
    requires WrittenBefore(before, nexts, prior, rows, replace, given, Mark(id, InProgress), i)
    requires Unused(prior, id) && Spared(before, prior, spare)
    ensures WrittenBefore(before, nexts[ORDER[i] := base], now, rows, replace, given, Mark(id, InProgress), i + 1)
    ensures Unused(now, id) && Spared(before, now, spare)
  {
    OrderIsComplete();
    OneWrittenAtIndex(before, nexts, prior, now, base, rows, replace, given, Mark(id, InProgress), i, ORDER);
    TransactionSpares(At(prior, ORDER[i]), base, rows[ORDER[i]], replace[ORDER[i]], given, Mark(id, InProgress), spare);
    SparedStill(before, prior, now, ORDER[i], id, spare);
  }

  lemma OneWrittenAtIndex(before: Stores, nexts: map<Component, Receipts>, prior: Stores, now: Stores, base: Receipts,
                          rows: map<Component, seq<MetricRow>>, replace: map<Component, set<string>>, given: Receipts, mark: Mark,
                          i: nat, order: seq<Component>)
    requires rows.Keys == COMPONENTS && replace.Keys == COMPONENTS && i < |order|
    requires forall j | 0 <= j < |order| :: order[j] in COMPONENTS && (j != i ==> order[j] != order[i])
    requires now == prior || (order[i] in now && now == prior[order[i] := now[order[i]]])
    requires WrittenAt(prior, base, now, rows[order[i]], replace[order[i]], given, mark, order[i])
    requires forall j | 0 <= j < i :: order[j] in nexts && WrittenAt(before, nexts[order[j]], prior, rows[order[j]], replace[order[j]], given, mark, order[j])
    requires forall j | i <= j < |order| :: At(prior, order[j]) == At(before, order[j])
    ensures forall j | 0 <= j <= i :: WrittenAt(before, nexts[order[i] := base][order[j]], now, rows[order[j]], replace[order[j]], given, mark, order[j])
    ensures forall j | i < j < |order| :: At(now, order[j]) == At(before, order[j])
  {
  }

  lemma SparedStill(before: Stores, prior: Stores, now: Stores, c: Component, id: string, spare: Allowance)
    requires now == prior || (c in now && now == prior[c := now[c]])
    requires StoreSpared(At(prior, c), At(now, c), spare)
    requires At(now, c).mark != Some(Mark(id, Complete))
    requires Unused(prior, id) && Spared(before, prior, spare)
    ensures Unused(now, id) && Spared(before, now, spare)
  {
  }

  lemma AllOrderWritten(before: Stores, nexts: map<Component, Receipts>, now: Stores, rows: map<Component, seq<MetricRow>>,
                        replace: map<Component, set<string>>, given: Receipts, mark: Mark)
    requires rows.Keys == COMPONENTS && replace.Keys == COMPONENTS
    requires WrittenBefore(before, nexts, now, rows, replace, given, mark, |ORDER|)
    ensures AllWritten(before, nexts, now, rows, replace, given, mark)
  {
    OrderIsComplete();
    hide Written, Migration;
  }

  lemma NothingWritten(t: Table, given: Receipts)
    ensures Upsert(t, []) == t && WithDefaults(given, []) == given
  {
  }

  lemma OneRowMore(t: Table, given: Receipts, rows: seq<MetricRow>, i: nat)
    requires i < |rows|
    ensures Upsert(t, rows[..i + 1]) == Upsert(t, rows[..i])[rows[i].key := rows[i].row]
    ensures var r := WithDefaults(given, rows[..i]);
      WithDefaults(given, rows[..i + 1]) == if rows[i].key.runKey in r then r else r[rows[i].key.runKey := rows[i].row.sampleDir]
  {
    assert rows[..i + 1][..i] == rows[..i];
  }

  lemma OrderIsComplete()
    ensures forall c: Component :: c in COMPONENTS && exists j :: 0 <= j < |ORDER| && ORDER[j] == c
    ensures forall i, j | 0 <= i < |ORDER| && 0 <= j < |ORDER| && i != j :: ORDER[i] != ORDER[j]
  {
    forall c: Component ensures c in COMPONENTS && exists j :: 0 <= j < |ORDER| && ORDER[j] == c {
      AllComponents(c);
      assert c == ORDER[0] || c == ORDER[1] || c == ORDER[2] || c == ORDER[3];
    }
  }

  lemma NothingSpared(stores: Stores, spare: Allowance)
    ensures Spared(stores, stores, spare)
  {
  }

  lemma RowsOfBatch(root: Directory, batch: seq<RankFile>, rows: seq<MetricRow>, c: Component, r: MetricRow)
    requires FilesFit(root, batch) && First(rows) == First(Classified(batch, c)) && r in rows
    ensures r.key.runKey in RunKeys(batch)
  {
    FirstIsFirst(rows);
    FirstInScope(root, batch, c);
    hide First, Classified, FilesFit;
    assert r.key in KeysOf(rows);
  }

  lemma BatchesAdvance(root: Directory, before: Stores, bases: map<Component, Receipts>, prior: Stores, now: Stores,
                       written: map<Component, Receipts>, unique: map<Component, seq<MetricRow>>, done: seq<RankFile>,
                       batch: seq<RankFile>, id: string)
    returns (nexts: map<Component, Receipts>)
    requires FilesFit(root, done) && FilesFit(root, batch) && RunKeys(done) !! RunKeys(batch) && batch != []
    requires AllProgress(before, bases, prior, done) && unique.Keys == COMPONENTS
    requires AllWritten(prior, written, now, unique, map c | c in COMPONENTS :: RunKeys(batch), ReceiptsOf(batch), Mark(id, InProgress))
    requires forall c | c in COMPONENTS :: DistinctKeys(unique[c]) && First(unique[c]) == First(Classified(batch, c))
    ensures AllProgress(before, nexts, now, done + batch)
  {
    hide FilesFit, RunKeys, DistinctKeys, First, Classified, Progress, Migration, Written;
    nexts := map c | c in COMPONENTS :: if done == [] then written[c] else bases[c];
    forall c | c in COMPONENTS
      ensures c in now && now[c].rows.Some? && Progress(At(before, c), nexts[c], At(now, c), done + batch, c)
    {
      WrittenHasTable(At(prior, c), written[c], unique[c], RunKeys(batch), ReceiptsOf(batch), Mark(id, InProgress));
      assert WrittenAt(prior, written[c], now, unique[c], RunKeys(batch), ReceiptsOf(batch), Mark(id, InProgress), c);
      BatchAdvances(root, At(before, c), bases[c], At(prior, c), written[c], unique[c], done, batch, c, Mark(id, InProgress));
    }
  }

  lemma WrittenHasTable(s: Store, base: Receipts, rows: seq<MetricRow>, replace: set<string>, given: Receipts, mark: Mark)
    ensures Written(s, base, rows, replace, given, mark).rows.Some?
  {
  }

  lemma TableWasMissing(before: Stores, bases: map<Component, Receipts>, now: Stores, files: seq<RankFile>)
    requires AllProgress(before, bases, now, files) && TableMissing(now)
    ensures files == [] && TableMissing(before)
  {
    hide Progress;
    var c :| c in now && now[c].rows.None?;
    AllComponents(c);
  }

  lemma StaleInScope(root: Directory, before: Stores, bases: map<Component, Receipts>, now: Stores, files: seq<RankFile>,
                     stale: map<Component, set<string>>, spare: Allowance)
    requires FilesFit(root, files) && AllProgress(before, bases, now, files) && RunKeys(files) <= spare.touched
    requires forall c | c in COMPONENTS :: InScope(root, At(before, c)) <= spare.touched
    requires stale == map c | c in COMPONENTS :: InScope(root, At(now, c)) - RunKeys(files)
    ensures forall c | c in COMPONENTS :: stale[c] <= spare.touched
  {
    hide FilesFit, RunKeys, Progress, InScope;
    forall c, k | c in COMPONENTS && k in stale[c] ensures k in spare.touched {
      ScopeOutside(root, At(before, c), bases[c], At(now, c), files, c, k);
    }
  }

  lemma AllRebuilt(root: Directory, before: Stores, bases: map<Component, Receipts>, prior: Stores, now: Stores,
                   nexts: map<Component, Receipts>, files: seq<RankFile>, stale: map<Component, set<string>>,
                   none: map<Component, seq<MetricRow>>, id: string)
    requires FilesFit(root, files) && AllProgress(before, bases, prior, files)
    requires stale == map c | c in COMPONENTS :: InScope(root, At(prior, c)) - RunKeys(files)
    requires none == map c | c in COMPONENTS :: []
    requires AllWritten(prior, nexts, now, none, stale, map[], Mark(id, InProgress))
    ensures forall c | c in COMPONENTS :: c in now && Rebuilt(root, At(before, c), now[c], files, c)
  {
    hide FilesFit, RunKeys, Progress, InScope, Migration, Written, Rebuilt;
    forall c | c in COMPONENTS ensures c in now && Rebuilt(root, At(before, c), now[c], files, c) {
      assert WrittenAt(prior, nexts[c], now, none[c], stale[c], map[], Mark(id, InProgress), c);
      FinishRebuilds(root, At(before, c), bases[c], At(prior, c), nexts[c], files, c, Mark(id, InProgress));
    }
  }

  lemma NotPublished(stores: Stores, id: string)
    requires Unused(stores, id)
    ensures !Published(stores, id)
  {
  }

  lemma SparedByInitialization(before: Stores, now: Stores, spare: Allowance)
    requires forall c | c in COMPONENTS ::
      At(now, c).rows == At(before, c).rows && (At(now, c) == At(before, c) || Initialized(At(before, c), At(now, c)))
    ensures Spared(before, now, spare)
  {
  }

  lemma SparedThrough(a: Stores, b: Stores, c: Stores, spare: Allowance)
    requires Spared(a, b, spare) && Spared(b, c, spare)
    ensures Spared(a, c, spare)
  {
  }

  lemma InitializedComplete(before: Stores, now: Stores)
    requires (now == before && before.Keys == {}) || (forall c | c in COMPONENTS :: c in now && now[c].rows.Some? && Initialized(At(before, c), now[c]))
    ensures Skippable(before, true) == StoredKeys(At(now, ORDER[0])) * StoredKeys(At(now, ORDER[1]))
                                    * StoredKeys(At(now, ORDER[2])) * StoredKeys(At(now, ORDER[3]))
    ensures now.Keys == {} ==> Skippable(before, true) == {}
  {
  }

  lemma ProgressStarts(before: Stores, bases: map<Component, Receipts>)
    requires bases.Keys == COMPONENTS
    ensures AllProgress(before, bases, before, []) && AllAgree([])
  {
  }

  lemma DisjointFromPart(part: set<string>, all: set<string>, other: set<string>)
    requires part <= all && other * all == {}
    ensures part !! other
  {
    assert forall k :: k in other && k in all ==> k in other * all;
  }

  /** Where the loop over the run directories stands. */
  ghost predicate Collected(root: Directory, dirs: seq<seq<RankFile>>, complete: set<string>, done: seq<RankFile>,
                            batch: seq<RankFile>, valid: set<string>)
  {
    && done + batch == Selected(dirs, complete) && valid == RunKeys(Discovered(dirs)) && DistinctRuns(dirs)
    && FilesFit(root, done) && FilesFit(root, batch)
    && RunKeys(done) !! RunKeys(batch) && RunKeys(done) <= valid && RunKeys(batch) <= valid
  }

  lemma NothingCollected(root: Directory, dirs: seq<seq<RankFile>>, complete: set<string>)
    ensures Collected(root, dirs[..0], complete, [], [], {}) && RunKeys([]) == {}
  {
  }

  lemma CollectOne(root: Directory, dirs: seq<seq<RankFile>>, i: nat, complete: set<string>, done: seq<RankFile>,
                   batch: seq<RankFile>, valid: set<string>)
    requires i < |dirs| && FilesFit(root, dirs[i])
    requires Collected(root, dirs[..i], complete, done, batch, valid) && RunKeys(dirs[i]) * valid == {}
    ensures Collected(root, dirs[..i + 1], complete, done,
                      if RunKeys(dirs[i]) <= complete then batch else batch + dirs[i], valid + RunKeys(dirs[i]))
  {
    hide Selected, DistinctRuns, RunKeys, FilesFit;
    SelectedSnoc(dirs, complete, i);
    SelectedSnoc(dirs, {}, i);
    DistinctSoFar(dirs, i);
    BatchGrows(root, batch, dirs[i]);
    DisjointFromPart(RunKeys(done), valid, RunKeys(dirs[i]));
    assert done + (batch + dirs[i]) == (done + batch) + dirs[i];
    assert (done + batch) + [] == done + batch;
  }

  lemma ReadyToFlush(root: Directory, dirs: seq<seq<RankFile>>, n: nat, complete: set<string>, done: seq<RankFile>,
                     batch: seq<RankFile>, valid: set<string>, spare: Allowance)
    requires n <= |dirs| && Collected(root, dirs[..n], complete, done, batch, valid) && RunKeys(Discovered(dirs)) <= spare.touched
    ensures FilesFit(root, done) && FilesFit(root, batch) && RunKeys(done) !! RunKeys(batch) && RunKeys(batch) <= spare.touched
    ensures !AllAgree(done + batch) ==> !AllAgree(Selected(dirs, complete))
  {
    KeysOfPrefix(dirs, n);
    ConflictInPrefix(dirs, complete, n, done + batch);
  }

  lemma CollectedFlush(root: Directory, dirs: seq<seq<RankFile>>, complete: set<string>, done: seq<RankFile>,
                       batch: seq<RankFile>, valid: set<string>)
    requires Collected(root, dirs, complete, done, batch, valid)
    ensures Collected(root, dirs, complete, done + batch, [], valid) && RunKeys([]) == {}
  {
  }

  lemma AllCollected(root: Directory, dirs: seq<seq<RankFile>>, complete: set<string>, done: seq<RankFile>, valid: set<string>)
    requires Collected(root, dirs, complete, done, [], valid)
    ensures done == Selected(dirs, complete) && valid == RunKeys(Discovered(dirs)) && FilesFit(root, done) && DistinctRuns(dirs)
  {
  }

  lemma KeysOfPrefix(dirs: seq<seq<RankFile>>, n: nat)
    requires n <= |dirs|
    ensures RunKeys(Discovered(dirs[..n])) <= RunKeys(Discovered(dirs))
  {
    SelectedPrefix(dirs, {}, n);
  }

  lemma SelectedSnoc(dirs: seq<seq<RankFile>>, complete: set<string>, i: nat)
    requires i < |dirs|
    ensures Selected(dirs[..i + 1], complete) == Selected(dirs[..i], complete) + (if RunKeys(dirs[i]) <= complete then [] else dirs[i])
    ensures RunKeys(Selected(dirs[..i + 1], {})) == RunKeys(Selected(dirs[..i], {})) + RunKeys(dirs[i])
    ensures dirs[i] in dirs
  {
    assert dirs[..i + 1][..i] == dirs[..i];
    KeysOfAppend(Selected(dirs[..i], {}), dirs[i]);
    KeysOfAppend(Selected(dirs[..i], {}), []);
  }

  lemma {:induction false} RunsOfSelection(dirs: seq<seq<RankFile>>, k: string)
    requires k in RunKeys(Discovered(dirs))
    ensures exists j :: 0 <= j < |dirs| && k in RunKeys(dirs[j])
  {
    if dirs != [] {
      var n := |dirs| - 1;
      SelectedSnoc(dirs, {}, n);
      assert dirs[..n + 1] == dirs;
      if k !in RunKeys(dirs[n]) {
        RunsOfSelection(dirs[..n], k);
      }
    }
  }

  lemma DuplicateRuns(root: Directory, dirs: seq<seq<RankFile>>, i: nat, complete: set<string>, done: seq<RankFile>,
                      batch: seq<RankFile>, valid: set<string>)
    requires i < |dirs| && Collected(root, dirs[..i], complete, done, batch, valid) && RunKeys(dirs[i]) * valid != {}
    ensures !DistinctRuns(dirs)
  {
    var k :| k in RunKeys(dirs[i]) && k in RunKeys(Discovered(dirs[..i]));
    RunsOfSelection(dirs[..i], k);
    var j :| 0 <= j < i && k in RunKeys(dirs[..i][j]);
    assert k in RunKeys(dirs[j]) * RunKeys(dirs[i]);
  }

  lemma {:induction false} DiscoveredHolds(dirs: seq<seq<RankFile>>, n: nat, j: nat)
    requires j < n <= |dirs|
    ensures RunKeys(dirs[j]) <= RunKeys(Discovered(dirs[..n]))
  {
    SelectedSnoc(dirs, {}, n - 1);
    if j < n - 1 {
      DiscoveredHolds(dirs, n - 1, j);
    }
  }

  lemma DistinctSoFar(dirs: seq<seq<RankFile>>, i: nat)
    requires i < |dirs| && RunKeys(dirs[i]) * RunKeys(Discovered(dirs[..i])) == {} && DistinctRuns(dirs[..i])
    ensures DistinctRuns(dirs[..i + 1])
  {
    var d := dirs[..i + 1];
    forall a, b | 0 <= a < b < |d| ensures RunKeys(d[a]) !! RunKeys(d[b]) {
      if b < i {
        assert d[a] == dirs[..i][a] && d[b] == dirs[..i][b];
      } else {
        DiscoveredHolds(dirs, i, a);
        DisjointFromPart(RunKeys(dirs[a]), RunKeys(Discovered(dirs[..i])), RunKeys(dirs[i]));
      }
    }
  }

  lemma BatchGrows(root: Directory, batch: seq<RankFile>, current: seq<RankFile>)
    requires FilesFit(root, batch) && FilesFit(root, current)
    ensures FilesFit(root, batch + current) && RunKeys(batch + current) == RunKeys(batch) + RunKeys(current)
  {
  }

  lemma {:induction false} SelectedPrefix(dirs: seq<seq<RankFile>>, complete: set<string>, n: nat)
    requires n <= |dirs|
    ensures Selected(dirs[..n], complete) <= Selected(dirs, complete)
    decreases |dirs| - n
  {
    if n == |dirs| {
      assert dirs[..n] == dirs;
    } else {
      SelectedSnoc(dirs, complete, n);
      SelectedPrefix(dirs, complete, n + 1);
    }
  }

  lemma MayTouch(root: Directory, stores: Stores, dirs: seq<seq<RankFile>>, onlyMissing: bool)
    ensures var spare := Allowed(root, stores, dirs, onlyMissing);
      && RunKeys(Discovered(dirs)) <= spare.touched
      && (!onlyMissing ==> spare.touched <= spare.removed && forall c | c in COMPONENTS :: InScope(root, At(stores, c)) <= spare.touched)
  {
  }

  /** Every discovered run is either processed or recorded in all four stores already. */
  lemma {:induction false} ProcessedOrComplete(dirs: seq<seq<RankFile>>, complete: set<string>)
    ensures RunKeys(Discovered(dirs)) <= RunKeys(Selected(dirs, complete)) + complete
    ensures RunKeys(Selected(dirs, complete)) <= RunKeys(Discovered(dirs))
  {
    if dirs != [] {
      var n := |dirs| - 1;
      assert dirs[..n + 1] == dirs;
      SelectedSnoc(dirs, complete, n);
      ProcessedOrComplete(dirs[..n], complete);
      KeysOfAppend(Selected(dirs[..n], complete), dirs[n]);
      KeysOfAppend(Selected(dirs[..n], complete), []);
    }
  }

  lemma SomethingProcessed(dirs: seq<seq<RankFile>>, complete: set<string>, files: seq<RankFile>, valid: set<string>)
    requires files == Selected(dirs, complete) && valid == RunKeys(Discovered(dirs))
    ensures valid != {} && complete == {} ==> files != []
  {
  }

  lemma ReceiptsForAll(root: Directory, before: Stores, s: Store, dirs: seq<seq<RankFile>>, onlyMissing: bool, files: seq<RankFile>, c: Component)
    requires files == Selected(dirs, Skippable(before, onlyMissing))
    requires if onlyMissing then Extended(At(before, c), s, files, c) else Rebuilt(root, At(before, c), s, files, c)
    ensures RunKeys(Discovered(dirs)) <= ReceiptsIn(s).Keys
  {
    ProcessedOrComplete(dirs, Skippable(before, onlyMissing));
    hide RunKeys, Selected, First, Classified, InScope, Without, RecordedKeys;
    if onlyMissing {
      OrderIsComplete();
      var j :| 0 <= j < |ORDER| && ORDER[j] == c;
      assert Skippable(before, true) <= RecordedKeys(At(before, c));
    }
  }

  lemma ReconciledBeforeStamps(root: Directory, before: Stores, now: Stores, dirs: seq<seq<RankFile>>, onlyMissing: bool, files: seq<RankFile>)
    requires files == Selected(dirs, Skippable(before, onlyMissing)) && DistinctRuns(dirs) && AllAgree(files) && EqualKeys(now)
    requires forall c | c in COMPONENTS :: c in now
    requires forall c | c in COMPONENTS ::
      if onlyMissing then Extended(At(before, c), now[c], files, c) else Rebuilt(root, At(before, c), now[c], files, c)
    ensures Reconciled(root, before, now, dirs, onlyMissing)
  {
    hide RunKeys, Selected, Discovered, Skippable, Extended, Rebuilt, AllAgree, DistinctRuns, EqualKeys;
    forall c | c in COMPONENTS ensures RunKeys(Discovered(dirs)) <= ReceiptsIn(now[c]).Keys {
      ReceiptsForAll(root, before, now[c], dirs, onlyMissing, files, c);
    }
  }

  lemma StampKeeps(root: Directory, s0: Store, a: Store, b: Store, dirs: seq<seq<RankFile>>, files: seq<RankFile>, onlyMissing: bool, c: Component)
    requires a.(mark := None) == b.(mark := None)
    ensures StoreReconciled(root, s0, a, dirs, files, onlyMissing, c) ==> StoreReconciled(root, s0, b, dirs, files, onlyMissing, c)
    ensures StoredKeys(a) == StoredKeys(b) && RowsOf(a) == RowsOf(b)
  {
  }

  lemma StampsKeep(root: Directory, start: Stores, before: Stores, now: Stores, dirs: seq<seq<RankFile>>, onlyMissing: bool, spare: Allowance)
    requires SameContents(before, now) && now.Keys == before.Keys
    ensures Reconciled(root, start, before, dirs, onlyMissing) ==> Reconciled(root, start, now, dirs, onlyMissing)
    ensures Spared(start, before, spare) ==> Spared(start, now, spare)
  {
    hide StoreReconciled, StoredKeys, RowsOf, Without, Selected, Skippable, DistinctRuns, AllAgree;
    forall c | c in COMPONENTS
      ensures StoredKeys(At(now, c)) == StoredKeys(At(before, c)) && RowsOf(At(now, c)) == RowsOf(At(before, c))
    {
      StampKeeps(root, At(start, c), At(before, c), At(now, c), dirs, [], onlyMissing, c);
    }
    if Reconciled(root, start, before, dirs, onlyMissing) {
      var files := Selected(dirs, Skippable(start, onlyMissing));
      forall c | c in COMPONENTS ensures c in now && StoreReconciled(root, At(start, c), now[c], dirs, files, onlyMissing, c) {
        StampKeeps(root, At(start, c), At(before, c), At(now, c), dirs, files, onlyMissing, c);
      }
    }
  }

  lemma ClassifiedPrefix(files: seq<RankFile>, n: nat, c: Component)
    requires n <= |files|
    ensures Classified(files[..n], c) <= Classified(files, c)
  {
    assert files == files[..n] + files[n..];
    ClassifiedAppend(files[..n], files[n..], c);
  }

  lemma ConflictInPrefix(dirs: seq<seq<RankFile>>, complete: set<string>, n: nat, files: seq<RankFile>)
    requires n <= |dirs| && files == Selected(dirs[..n], complete)
    ensures !AllAgree(files) ==> !AllAgree(Selected(dirs, complete))
  {
    if !AllAgree(files) {
      var c :| c in COMPONENTS && !Agree(Classified(files, c));
      hide Agree, Classified, Selected;
      SelectedPrefix(dirs, complete, n);
      var all := Selected(dirs, complete);
      assert files == all[..|files|];
      ClassifiedPrefix(all, |files|, c);
      AgreePrefix(Classified(all, c), |Classified(files, c)|);
    }
  }

  /** Contradictions only arise within one run, so batching does not hide or create any. */
  lemma AgreeTogether(root: Directory, a: seq<RankFile>, b: seq<RankFile>)
    requires FilesFit(root, a) && FilesFit(root, b) && RunKeys(a) !! RunKeys(b)
    ensures AllAgree(a + b) <==> AllAgree(a) && AllAgree(b)
  {
    forall c ensures Agree(Classified(a + b, c)) <==> Agree(Classified(a, c)) && Agree(Classified(b, c)) {
      ClassifiedAppend(a, b, c);
      ClassifiedKeys(root, a, c);
      ClassifiedKeys(root, b, c);
      hide Classified, RunKeys, FilesFit;
      AgreeOfDisjoint(Classified(a, c), Classified(b, c), RunKeys(a), RunKeys(b));
    }
  }

  lemma AgreeOfDisjoint(a: seq<MetricRow>, b: seq<MetricRow>, ka: set<string>, kb: set<string>)
    requires ka !! kb && (forall r | r in a :: r.key.runKey in ka) && (forall r | r in b :: r.key.runKey in kb)
    ensures Agree(a + b) <==> Agree(a) && Agree(b)
  {
    hide SameEvidence;
    var both := a + b;
    if Agree(a) && Agree(b) {
      forall i, j | 0 <= i < |a| <= j < |both| ensures both[i].key != both[j].key {
        assert both[i] in a && both[j] in b;
      }
      forall i, j | 0 <= i < j < |both| && both[i].key == both[j].key ensures SameEvidence(both[i].row, both[j].row) {
        if j < |a| {
          assert both[i] == a[i] && both[j] == a[j];
        } else if i >= |a| {
          assert both[i] == b[i - |a|] && both[j] == b[j - |a|];
        }
      }
    }
    if Agree(both) {
      forall i, j | 0 <= i < j < |a| && a[i].key == a[j].key ensures SameEvidence(a[i].row, a[j].row) {
        assert both[i] == a[i] && both[j] == a[j];
      }
      forall i, j | 0 <= i < j < |b| && b[i].key == b[j].key ensures SameEvidence(b[i].row, b[j].row) {
        assert both[|a| + i] == b[i] && both[|a| + j] == b[j];
      }
    }
  }

  lemma AllExtended(start: Stores, before: Stores, bases: map<Component, Receipts>, now: Stores, files: seq<RankFile>)
    requires AllProgress(before, bases, now, files)
    requires (before == start && start.Keys == {} && files != [])
          || (forall c | c in COMPONENTS :: c in before && before[c].rows.Some? && Initialized(At(start, c), before[c]))
    ensures forall c | c in COMPONENTS :: c in now && Extended(At(start, c), now[c], files, c)
  {
    forall c | c in COMPONENTS ensures c in now && Extended(At(start, c), now[c], files, c) {
      hide First, Classified, RunKeys, Extended, Migration;
      ProgressExtends(At(start, c), At(before, c), bases[c], At(now, c), files, c);
    }
  }
}
