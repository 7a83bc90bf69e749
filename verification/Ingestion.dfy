/** ingest_run (cval/storage/run_ingest.py): the raw writers of passing tests in registry order, the status rows last.
    Any step may raise, and the process may die between any two commits. */
module Ingestion {
  import opened Wrappers
  import opened Generations
  import opened RunStores

  datatype Owner = StorageTest | NcclTest | DlTest

  datatype StoreName = StorageStore | NcclStore | DlStore(component: Component) | ValidationStore

  datatype StoreState = Pending | NotRequired | Committed | Unconfirmed

  /** Died: the process stopped without reporting. */
  datatype Write = Wrote | Raised | Died

  datatype Outcome = Finished | Failed | Killed

  predicate Passes(e: Evidence, o: Owner) {
    match o
    case StorageTest => e.storagePasses
    case NcclTest => e.ncclPasses
    case DlTest => e.dlPasses
  }

  function OwnerOf(s: StoreName): Option<Owner> {
    match s
    case StorageStore => Some(StorageTest)
    case NcclStore => Some(NcclTest)
    case DlStore(_) => Some(DlTest)
    case ValidationStore => None
  }

  const STORES: set<StoreName> := {
    StorageStore, NcclStore, DlStore(NumericalCorrectness), DlStore(ComputePerformance), DlStore(CollectivePerformance),
    DlStore(OverlapPerformance), ValidationStore}

  function InitialStates(e: Evidence): map<StoreName, StoreState> {
    map s | s in STORES :: if s == ValidationStore || Passes(e, OwnerOf(s).value) then Pending else NotRequired
  }

  function MarkOwner(states: map<StoreName, StoreState>, o: Owner, state: StoreState): map<StoreName, StoreState> {
    map s | s in states :: if OwnerOf(s) == Some(o) then state else states[s]
  }

  /** The owner's stores hold this run. */
  predicate OwnerNew(before: Contents, e: Evidence, now: Contents, o: Owner) {
    match o
    case StorageTest => HealthNew(e.storagePasses, before.storage, e.StorageRow(), now.storage)
    case NcclTest => HealthNew(e.ncclPasses, before.nccl, e.NcclRow(), now.nccl)
    case DlTest => DlNew(before.dl, e, now.dl)
  }

  predicate OwnerSame(before: Contents, now: Contents, o: Owner) {
    match o
    case StorageTest => now.storage == before.storage
    case NcclTest => now.nccl == before.nccl
    case DlTest => now.dl == before.dl
  }

  predicate OwnerBetween(before: Contents, e: Evidence, now: Contents, o: Owner) {
    match o
    case StorageTest => HealthBetween(e.storagePasses, before.storage, e.StorageRow(), now.storage)
    case NcclTest => HealthBetween(e.ncclPasses, before.nccl, e.NcclRow(), now.nccl)
    case DlTest => DlBetween(before.dl, e, now.dl)
  }

  /** What the reported states claim: committed stores hold the run, pending and not-required ones were not touched. */
  predicate Truthful(before: Contents, e: Evidence, now: Contents, states: map<StoreName, StoreState>) {
    && states.Keys == STORES
    && (forall s | s in STORES && s != ValidationStore ::
          && (states[s] == Committed ==> OwnerNew(before, e, now, OwnerOf(s).value))
          && (states[s] in {Pending, NotRequired} ==> OwnerSame(before, now, OwnerOf(s).value))
          && (states[s] == NotRequired <==> !Passes(e, OwnerOf(s).value)))
    && (states[ValidationStore] == Committed ==> Recorded(before, e, now))
    && (states[ValidationStore] == Pending ==> now.validation == before.validation)
    && states[ValidationStore] != NotRequired
  }

  /** Each passing test's writer once. */
  predicate WritersFit(e: Evidence, writers: seq<Owner>) {
    && (forall o :: Passes(e, o) <==> o in writers)
    && (forall i, j | 0 <= i < j < |writers| :: writers[i] != writers[j])
  }

  class Recorder {
    var contents: Contents

    constructor (contents: Contents)
      ensures this.contents == contents
    {
      this.contents := contents;
    }

    /** add_storage_metrics and add_nccl_health: one transaction that appends, accepts or refuses. */
    method WriteHealth(e: Evidence, storage: bool) returns (w: Write)
      requires if storage then e.storagePasses else e.ncclPasses
      modifies this
      ensures contents.dl == old(contents.dl) && contents.validation == old(contents.validation)
      ensures if storage then contents.nccl == old(contents.nccl) else contents.storage == old(contents.storage)
      ensures OwnerBetween(old(contents), e, contents, if storage then StorageTest else NcclTest)
      ensures w == Wrote ==> OwnerNew(old(contents), e, contents, if storage then StorageTest else NcclTest)
    {
      hide Appended;
      w := *;
      if w != Wrote {
        return;
      }
      var row := if storage then e.StorageRow() else e.NcclRow();
      var next := Appended(if storage then contents.storage else contents.nccl, row);
      if next.None? {
        return Raised;
      }
      contents := if storage then contents.(storage := next.value) else contents.(nccl := next.value);
      w := *;
    }

    /** ingest_dltest_run: four transactions, then the receipts must be equal. */
    method WriteDl(e: Evidence) returns (w: Write)
      requires e.dlPasses && contents.dl.Keys == COMPONENTS
      modifies this
      ensures contents == old(contents).(dl := contents.dl) && contents.dl.Keys == COMPONENTS && DlBetween(old(contents).dl, e, contents.dl)
      ensures w == Wrote ==> DlNew(old(contents).dl, e, contents.dl) && EqualReceipts(contents.dl)
    {
      hide DlWritten;
      ghost var before := contents;
      var todo := COMPONENTS;
      while todo != {}
        invariant todo <= COMPONENTS && contents == before.(dl := contents.dl) && contents.dl.Keys == COMPONENTS
        invariant forall c | c in COMPONENTS :: contents.dl[c] == if c in todo then before.dl[c] else DlWritten(before.dl[c], e, c)
        decreases |todo|
      {
        w := *;
        if w != Wrote {
          return;
        }
        var c :| c in todo;
        contents := contents.(dl := contents.dl[c := DlWritten(contents.dl[c], e, c)]);
        todo := todo - {c};
      }
      if !EqualReceipts(contents.dl) {
        return Raised;
      }
      w := *;
    }

    /** add_validation_run_results. */
    method WriteStatuses(e: Evidence) returns (w: Write)
      modifies this
      ensures contents == old(contents).(validation := contents.validation)
      ensures contents.validation == old(contents.validation) || AppendedStatuses(old(contents.validation), e) == Some(contents.validation)
      ensures w == Wrote ==> AppendedStatuses(old(contents.validation), e) == Some(contents.validation)
    {
      hide AppendedStatuses;
      w := *;
      if w != Wrote {
        return;
      }
      var next := AppendedStatuses(contents.validation, e);
      if next.None? {
        return Raised;
      }
      contents := contents.(validation := next.value);
      w := *;
    }

    /** One attempt for one authorized result. */
    method IngestRun(e: Evidence, writers: seq<Owner>) returns (outcome: Outcome, states: map<StoreName, StoreState>)
      requires WritersFit(e, writers) && contents.dl.Keys == COMPONENTS
      modifies this
      ensures contents.dl.Keys == COMPONENTS && Between(old(contents), e, contents)
      ensures outcome != Killed ==> Truthful(old(contents), e, contents, states)
      ensures outcome == Finished ==> Recorded(old(contents), e, contents)
                                      && forall s | s in STORES :: states[s] in {Committed, NotRequired}
    {
      hide HealthNew, HealthBetween, DlNew, DlBetween, AppendedStatuses, STORES, Truthful, Passes, MarkOwner, Written, StatesFit, Between, Recorded, RawNew;
      ghost var before := contents;
      states := InitialStates(e);
      NothingWritten(before, e, writers, states);
      for i := 0 to |writers|
        invariant contents.dl.Keys == COMPONENTS && Written(before, e, contents, writers, i, states)
      {
        var o := writers[i];
        var w: Write;
        ghost var prior := contents;
        NextUntouched(before, e, contents, writers, i, states);
        if o == StorageTest {
          w := WriteHealth(e, true);
        } else if o == NcclTest {
          w := WriteHealth(e, false);
        } else {
          w := WriteDl(e);
        }
        if w != Wrote {
          WriterStops(before, e, prior, contents, writers, i, states, w);
          states := MarkOwner(states, o, Unconfirmed);
          return if w == Died then Killed else Failed, states;
        }
        WriterAdvances(before, e, prior, contents, writers, i, states);
        states := MarkOwner(states, o, Committed);
      }
      ghost var raw := contents;
      WritersDone(before, e, raw, writers, states);
      var w := WriteStatuses(e);
      StatusesLast(before, e, raw, contents, writers, states, w);
      states := states[ValidationStore := if w == Wrote then Committed else Unconfirmed];
      outcome := if w == Wrote then Finished else if w == Died then Killed else Failed;
    }

    /** Any number of attempts, each possibly cut short anywhere: when one finishes, the stores are what a single
        uninterrupted run would have left, and status rows never outrun the raw stores on the way. */
    method IngestUntilFinished(e: Evidence, writers: seq<Owner>, attempts: nat) returns (outcome: Outcome)
      requires WritersFit(e, writers) && contents.dl.Keys == COMPONENTS && StatusImpliesRaw(e, contents)
      modifies this
      ensures Between(old(contents), e, contents) && StatusImpliesRaw(e, contents)
      ensures outcome == Finished ==> Recorded(old(contents), e, contents)
    {
      hide Between, Recorded, StatusImpliesRaw, WritersFit;
      ghost var before := contents;
      NoAttempt(before, e);
      outcome := Killed;
      for i := 0 to attempts
        invariant contents.dl.Keys == COMPONENTS && Between(before, e, contents) && StatusImpliesRaw(e, contents) && outcome != Finished
      {
        ghost var prior := contents;
        var states;
        outcome, states := IngestRun(e, writers);
        AttemptsCompose(before, e, prior, contents);
        StatusStillImpliesRaw(prior, e, contents);
        if outcome == Finished {
          return;
        }
      }
    }

    /** Any schedule of attempts for any runs, each possibly cut short: no run's status rows ever outrun its raw stores. */
    method IngestRuns(evidence: seq<Evidence>, writers: seq<seq<Owner>>, schedule: seq<nat>)
      requires |evidence| == |writers| && forall i | 0 <= i < |evidence| :: WritersFit(evidence[i], writers[i])
      requires forall e, f | e in evidence && f in evidence :: OneResult(e, f)
      requires contents.dl.Keys == COMPONENTS && forall e | e in evidence :: StatusImpliesRaw(e, contents)
      requires forall k | k in schedule :: k < |evidence|
      modifies this
      ensures contents.dl.Keys == COMPONENTS && forall e | e in evidence :: StatusImpliesRaw(e, contents)
    {
      hide Between, StatusImpliesRaw, WritersFit, OneResult;
      for i := 0 to |schedule|
        invariant contents.dl.Keys == COMPONENTS && forall e | e in evidence :: StatusImpliesRaw(e, contents)
      {
        ghost var prior := contents;
        var k := schedule[i];
        assert k in schedule;
        var outcome, states := IngestRun(evidence[k], writers[k]);
        forall f | f in evidence ensures StatusImpliesRaw(f, contents) {
          OtherStatusesStillImplyRaw(prior, evidence[k], contents, f);
        }
      }
    }
  }

  lemma NoAttempt(s: Contents, e: Evidence)
    ensures Between(s, e, s)
  {
  }

  /** The first i writers are through, the rest and the status rows untouched. */
  ghost predicate Written(before: Contents, e: Evidence, now: Contents, writers: seq<Owner>, i: nat, states: map<StoreName, StoreState>)
    requires i <= |writers|
  {
    && now.validation == before.validation
    && (forall j | 0 <= j < i :: OwnerNew(before, e, now, writers[j]))
    && (forall j | i <= j < |writers| :: OwnerSame(before, now, writers[j]))
    && (forall o | !Passes(e, o) :: OwnerSame(before, now, o))
    && StatesFit(e, writers, i, states)
  }

  /** What one writer may do to the stores. */
  predicate Effect(prior: Contents, e: Evidence, now: Contents, o: Owner, w: Write) {
    && now.validation == prior.validation && OwnerBetween(prior, e, now, o)
    && (forall p | p != o :: OwnerSame(prior, now, p))
    && (w == Wrote ==> OwnerNew(prior, e, now, o))
  }

  lemma NothingWritten(before: Contents, e: Evidence, writers: seq<Owner>, states: map<StoreName, StoreState>)
    requires WritersFit(e, writers) && states == InitialStates(e)
    ensures Written(before, e, before, writers, 0, states)
  {
  }

  lemma OwnerAfter(before: Contents, e: Evidence, prior: Contents, now: Contents, o: Owner, w: Write)
    requires OwnerSame(before, prior, o) && Effect(prior, e, now, o, w)
    ensures OwnerBetween(before, e, now, o) && (w == Wrote ==> OwnerNew(before, e, now, o))
  {
    hide HealthNew, HealthBetween, DlNew, DlBetween;
  }

  lemma OwnerKept(before: Contents, e: Evidence, prior: Contents, now: Contents, o: Owner, p: Owner)
    requires OwnerSame(prior, now, p)
    ensures OwnerNew(before, e, prior, p) ==> OwnerNew(before, e, now, p)
    ensures OwnerSame(before, prior, p) ==> OwnerSame(before, now, p)
  {
    hide HealthNew, HealthBetween, DlNew, DlBetween;
  }

  lemma OwnersMakeBetween(before: Contents, e: Evidence, now: Contents)
    requires now.validation == before.validation && forall o :: OwnerBetween(before, e, now, o)
    ensures Between(before, e, now)
  {
    assert OwnerBetween(before, e, now, StorageTest) && OwnerBetween(before, e, now, NcclTest) && OwnerBetween(before, e, now, DlTest);
    hide HealthNew, HealthBetween, DlNew, DlBetween;
  }

  lemma SameIsBetween(before: Contents, e: Evidence, now: Contents, o: Owner)
    ensures OwnerSame(before, now, o) || OwnerNew(before, e, now, o) ==> OwnerBetween(before, e, now, o)
    ensures OwnerSame(before, now, o) && !Passes(e, o) ==> OwnerNew(before, e, now, o)
  {
  }

  lemma NextUntouched(before: Contents, e: Evidence, now: Contents, writers: seq<Owner>, i: nat, states: map<StoreName, StoreState>)
    requires WritersFit(e, writers) && i < |writers| && Written(before, e, now, writers, i, states)
    ensures Passes(e, writers[i]) && OwnerSame(before, now, writers[i])
  {
    assert writers[i] in writers;
  }

  /** A writer that went through advances the invariant. */
  lemma WriterAdvances(before: Contents, e: Evidence, prior: Contents, now: Contents, writers: seq<Owner>, i: nat, states: map<StoreName, StoreState>)
    requires WritersFit(e, writers) && i < |writers| && Written(before, e, prior, writers, i, states)
    requires Effect(prior, e, now, writers[i], Wrote)
    ensures Written(before, e, now, writers, i + 1, MarkOwner(states, writers[i], Committed))
  {
    hide OwnerNew, OwnerSame, OwnerBetween, Passes, MarkOwner;
    var o := writers[i];
    NextUntouched(before, e, prior, writers, i, states);
    OwnerAfter(before, e, prior, now, o, Wrote);
    forall p | p != o ensures (OwnerNew(before, e, prior, p) ==> OwnerNew(before, e, now, p)) && (OwnerSame(before, prior, p) ==> OwnerSame(before, now, p)) {
      OwnerKept(before, e, prior, now, o, p);
    }
    StatesAdvance(e, writers, i, states);
    assert forall j | 0 <= j < |writers| && j != i :: writers[j] != o;
  }

  predicate StatesFit(e: Evidence, writers: seq<Owner>, i: nat, states: map<StoreName, StoreState>)
    requires i <= |writers|
  {
    && states.Keys == STORES && states[ValidationStore] == Pending
    && forall s | s in STORES && s != ValidationStore ::
         && (states[s] == Committed ==> exists j :: 0 <= j < i && OwnerOf(s) == Some(writers[j]))
         && (states[s] == Pending ==> exists j :: i <= j < |writers| && OwnerOf(s) == Some(writers[j]))
         && (states[s] == NotRequired <==> !Passes(e, OwnerOf(s).value)) && states[s] != Unconfirmed
  }

  lemma StatesAdvance(e: Evidence, writers: seq<Owner>, i: nat, states: map<StoreName, StoreState>)
    requires i < |writers| && StatesFit(e, writers, i, states) && Passes(e, writers[i])
    ensures StatesFit(e, writers, i + 1, MarkOwner(states, writers[i], Committed))
  {
    hide Passes;
    var next := MarkOwner(states, writers[i], Committed);
    forall s | s in STORES && s != ValidationStore
      ensures next[s] == Committed ==> exists j :: 0 <= j < i + 1 && OwnerOf(s) == Some(writers[j])
      ensures next[s] == Pending ==> exists j :: i + 1 <= j < |writers| && OwnerOf(s) == Some(writers[j])
      ensures next[s] == NotRequired <==> !Passes(e, OwnerOf(s).value)
    {
      if OwnerOf(s) == Some(writers[i]) {
      } else if next[s] == Pending {
        var j :| i <= j < |writers| && OwnerOf(s) == Some(writers[j]);
        assert j != i;
      }
    }
  }

  /** Every owner's stores at a point of the loop: written, or untouched. */
  lemma OwnersAt(before: Contents, e: Evidence, now: Contents, writers: seq<Owner>, i: nat, states: map<StoreName, StoreState>, o: Owner)
    requires WritersFit(e, writers) && i <= |writers| && Written(before, e, now, writers, i, states)
    ensures OwnerSame(before, now, o) || OwnerNew(before, e, now, o)
    ensures i == |writers| ==> OwnerNew(before, e, now, o)
  {
    hide OwnerNew, OwnerSame, StatesFit;
    SameIsBetween(before, e, now, o);
    if Passes(e, o) {
      assert o in writers;
    }
  }

  /** A writer that stops leaves its own stores old or new, and everyone else's as reported. */
  lemma WriterStops(before: Contents, e: Evidence, prior: Contents, now: Contents, writers: seq<Owner>, i: nat,
                    states: map<StoreName, StoreState>, w: Write)
    requires WritersFit(e, writers) && i < |writers| && Written(before, e, prior, writers, i, states)
    requires Effect(prior, e, now, writers[i], w)
    ensures Between(before, e, now) && Truthful(before, e, now, MarkOwner(states, writers[i], Unconfirmed))
  {
    hide OwnerNew, OwnerSame, OwnerBetween, Between, Passes;
    var o := writers[i];
    NextUntouched(before, e, prior, writers, i, states);
    OwnerAfter(before, e, prior, now, o, w);
    forall p ensures OwnerBetween(before, e, now, p)
      ensures p != o ==> (OwnerNew(before, e, prior, p) ==> OwnerNew(before, e, now, p)) && (OwnerSame(before, prior, p) ==> OwnerSame(before, now, p))
    {
      if p != o {
        OwnersAt(before, e, prior, writers, i, states, p);
        OwnerKept(before, e, prior, now, o, p);
        SameIsBetween(before, e, now, p);
      }
    }
    OwnersMakeBetween(before, e, now);
    forall s | s in STORES && s != ValidationStore && OwnerOf(s).value != o
      ensures states[s] == Committed ==> OwnerNew(before, e, now, OwnerOf(s).value)
      ensures states[s] in {Pending, NotRequired} ==> OwnerSame(before, now, OwnerOf(s).value)
    {
      StateTells(before, e, prior, writers, i, states, s);
    }
  }

  lemma StateTells(before: Contents, e: Evidence, now: Contents, writers: seq<Owner>, i: nat, states: map<StoreName, StoreState>, s: StoreName)
    requires i <= |writers| && Written(before, e, now, writers, i, states) && s in STORES && s != ValidationStore
    ensures states[s] == Committed ==> OwnerNew(before, e, now, OwnerOf(s).value)
    ensures states[s] in {Pending, NotRequired} ==> OwnerSame(before, now, OwnerOf(s).value)
    ensures states[s] == NotRequired <==> !Passes(e, OwnerOf(s).value)
    ensures i == |writers| ==> states[s] in {Committed, NotRequired}
  {
    hide OwnerNew, OwnerSame, Passes;
  }

  lemma WritersDone(before: Contents, e: Evidence, now: Contents, writers: seq<Owner>, states: map<StoreName, StoreState>)
    requires WritersFit(e, writers) && Written(before, e, now, writers, |writers|, states)
    ensures RawNew(before, e, now)
  {
    forall o ensures OwnerNew(before, e, now, o) {
      OwnersAt(before, e, now, writers, |writers|, states, o);
    }
    assert OwnerNew(before, e, now, StorageTest) && OwnerNew(before, e, now, NcclTest) && OwnerNew(before, e, now, DlTest);
    hide HealthNew, DlNew, Written;
  }

  /** The status rows come last: with them the run is recorded, without them only the raw stores are. */
  lemma StatusesLast(before: Contents, e: Evidence, raw: Contents, now: Contents, writers: seq<Owner>, states: map<StoreName, StoreState>, w: Write)
    requires WritersFit(e, writers) && Written(before, e, raw, writers, |writers|, states) && RawNew(before, e, raw)
    requires now == raw.(validation := now.validation)
    requires now.validation == raw.validation || AppendedStatuses(raw.validation, e) == Some(now.validation)
    requires w == Wrote ==> AppendedStatuses(raw.validation, e) == Some(now.validation)
    ensures Between(before, e, now) && (w == Wrote ==> Recorded(before, e, now))
    ensures var final := states[ValidationStore := if w == Wrote then Committed else Unconfirmed];
      Truthful(before, e, now, final) && (w == Wrote ==> forall s | s in STORES :: final[s] in {Committed, NotRequired})
  {
    hide HealthNew, DlNew, AppendedStatuses, Passes, StatesFit;
    assert now.validation == before.validation || Recorded(before, e, now);
    RawIsBetween(before, e, now);
    WrittenKeys(before, e, raw, writers, states);
    var final := states[ValidationStore := if w == Wrote then Committed else Unconfirmed];
    forall s | s in STORES && s != ValidationStore
      ensures final[s] in {Committed, NotRequired}
      ensures final[s] == Committed ==> OwnerNew(before, e, now, OwnerOf(s).value)
      ensures final[s] == NotRequired ==> OwnerSame(before, now, OwnerOf(s).value)
      ensures final[s] == NotRequired <==> !Passes(e, OwnerOf(s).value)
    {
      StateTells(before, e, raw, writers, |writers|, states, s);
    }
  }

  lemma WrittenKeys(before: Contents, e: Evidence, now: Contents, writers: seq<Owner>, states: map<StoreName, StoreState>)
    requires Written(before, e, now, writers, |writers|, states)
    ensures states.Keys == STORES && ValidationStore in STORES
  {
  }

  lemma RawIsBetween(before: Contents, e: Evidence, now: Contents)
    requires RawNew(before, e, now) && (now.validation == before.validation || Recorded(before, e, now))
    ensures Between(before, e, now)
  {
  }
}
