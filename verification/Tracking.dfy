/** Incremental log tracking (cval/jobs/monitor.py): overlapping polls from a second-truncated cursor. */
module Tracking {
  import opened Wrappers
  import opened Identifiers

  /** ingestion_finished, as far as the runtime summary reads it. */
  datatype Acknowledgement = Acknowledgement(producer: string, nodeName: string, configDigest: string, status: string,
                                             resultDigest: string, stores: map<string, string>)

  datatype TestState = TestState(phase: string, status: string)

  /** supervisor_finished, as far as the runtime summary reads it. */
  datatype Summary = Summary(producer: string, nodeName: string, status: string, testsOutcome: string, ingestionOutcome: string,
                             logsState: string, resultState: string, resultDigest: string, exitCode: Option<int>,
                             stores: map<string, string>, tests: map<string, TestState>)

  /** An event of the tracked run; lines without one are Other. */
  datatype Event =
    | IngestionStarted
    | IngestionFinished(acknowledgement: Acknowledgement)
    | SupervisorStarted
    | SupervisorFinished(summary: Summary)
    | Other

  /** A complete log line, stamped in microseconds. */
  datatype Line = Line(at: int, event: Event)

  datatype Intent = Intent(nodeName: string, configDigest: string)

  datatype Runtime = Runtime(summary: Option<Summary>, acknowledgement: Option<Acknowledgement>)

  const NOTHING := Runtime(None, None)

  predicate AckValid(intent: Intent, a: Acknowledgement) {
    && a.producer == "ingestion" && a.nodeName == intent.nodeName && a.configDigest == intent.configDigest
    && a.status in {"pass", "fail"} && IsDigest(a.resultDigest)
    && a.stores.Keys == OWNERS.Keys + {"validation"}
    && (forall k | k in a.stores :: a.stores[k] in {"pending", "not_required", "committed", "unconfirmed"})
    && (a.status == "pass" ==>
          a.stores["validation"] == "committed" && forall k | k in a.stores :: a.stores[k] in {"committed", "not_required"})
  }

  predicate SummaryValid(intent: Intent, s: Summary) {
    s.producer == "supervisor" && s.nodeName == intent.nodeName
  }

  /** What an observation retains for the next one. */
  function Kept(intent: Intent, r: Runtime): Runtime {
    Runtime(if r.summary.Some? && SummaryValid(intent, r.summary.value) then r.summary else None,
            if r.acknowledgement.Some? && AckValid(intent, r.acknowledgement.value) then r.acknowledgement else None)
  }

  function Step(r: Runtime, e: Event): Runtime {
    match e
    case IngestionStarted => NOTHING
    case IngestionFinished(a) => r.(acknowledgement := Some(a))
    case SupervisorStarted => NOTHING
    case SupervisorFinished(s) => r.(summary := Some(s))
    case Other => r
  }

  /** Reading lines in order, starting from what was retained. */
  function Fold(r: Runtime, lines: seq<Line>): Runtime {
    if lines == [] then r else Step(Fold(r, lines[..|lines| - 1]), lines[|lines| - 1].event)
  }

  predicate Resets(e: Event) {
    e.IngestionStarted? || e.SupervisorStarted?
  }

  /** The acknowledgement that survives: the last one, with no reset after it. */
  predicate Survives(lines: seq<Line>, a: Acknowledgement, i: int) {
    && 0 <= i < |lines| && lines[i].event == IngestionFinished(a)
    && forall j | i < j < |lines| :: !Resets(lines[j].event) && !lines[j].event.IngestionFinished?
  }

  predicate SummarySurvives(lines: seq<Line>, s: Summary, i: int) {
    && 0 <= i < |lines| && lines[i].event == SupervisorFinished(s)
    && forall j | i < j < |lines| :: !Resets(lines[j].event) && !lines[j].event.SupervisorFinished?
  }

  predicate AckUntouched(lines: seq<Line>) {
    forall j | 0 <= j < |lines| :: !Resets(lines[j].event) && !lines[j].event.IngestionFinished?
  }

  predicate SummaryUntouched(lines: seq<Line>) {
    forall j | 0 <= j < |lines| :: !Resets(lines[j].event) && !lines[j].event.SupervisorFinished?
  }

  /** The surviving acknowledgement is exactly the last one after the last reset, or the retained one if no line
      touches it. */
  lemma {:induction false} FoldAcknowledgement(r: Runtime, lines: seq<Line>, a: Acknowledgement)
    ensures Fold(r, lines).acknowledgement == Some(a)
        <==> (exists i :: Survives(lines, a, i)) || (AckUntouched(lines) && r.acknowledgement == Some(a))
  {
    if lines != [] {
      var front, last := lines[..|lines| - 1], lines[|lines| - 1].event;
      FoldAcknowledgement(r, front, a);
      assert forall i :: !Resets(last) && !last.IngestionFinished? && Survives(front, a, i) ==> Survives(lines, a, i);
      assert last == IngestionFinished(a) ==> Survives(lines, a, |lines| - 1);
      if i :| Survives(lines, a, i) {
        assert i < |front| ==> !Resets(last) && !last.IngestionFinished? && Survives(front, a, i);
      }
      assert AckUntouched(lines) <==> AckUntouched(front) && !Resets(last) && !last.IngestionFinished?;
    }
  }

  lemma {:induction false} FoldSummary(r: Runtime, lines: seq<Line>, s: Summary)
    ensures Fold(r, lines).summary == Some(s)
        <==> (exists i :: SummarySurvives(lines, s, i)) || (SummaryUntouched(lines) && r.summary == Some(s))
  {
    if lines != [] {
      var front, last := lines[..|lines| - 1], lines[|lines| - 1].event;
      FoldSummary(r, front, s);
      assert forall i :: !Resets(last) && !last.SupervisorFinished? && SummarySurvives(front, s, i) ==> SummarySurvives(lines, s, i);
      assert last == SupervisorFinished(s) ==> SummarySurvives(lines, s, |lines| - 1);
      if i :| SummarySurvives(lines, s, i) {
        assert i < |front| ==> !Resets(last) && !last.SupervisorFinished? && SummarySurvives(front, s, i);
      }
      assert SummaryUntouched(lines) <==> SummaryUntouched(front) && !Resets(last) && !last.SupervisorFinished?;
    }
  }

  lemma {:induction false} FoldOfAppend(r: Runtime, a: seq<Line>, b: seq<Line>)
    ensures Fold(r, a + b) == Fold(Fold(r, a), b)
    decreases |b|
  {
    if b == [] {
      assert a + b == a;
    } else {
      assert (a + b)[..|a + b| - 1] == a + b[..|b| - 1];
      FoldOfAppend(r, a, b[..|b| - 1]);
    }
  }

  /** Each retained field is either overwritten by the lines or left alone. */
  lemma {:induction false} FoldOverwrites(r: Runtime, lines: seq<Line>)
    ensures Fold(r, lines).acknowledgement == if AckUntouched(lines) then r.acknowledgement else Fold(NOTHING, lines).acknowledgement
    ensures Fold(r, lines).summary == if SummaryUntouched(lines) then r.summary else Fold(NOTHING, lines).summary
  {
    if lines != [] {
      var front, last := lines[..|lines| - 1], lines[|lines| - 1].event;
      FoldOverwrites(r, front);
      assert AckUntouched(lines) <==> AckUntouched(front) && !Resets(last) && !last.IngestionFinished?;
      assert SummaryUntouched(lines) <==> SummaryUntouched(front) && !Resets(last) && !last.SupervisorFinished?;
    }
  }

  lemma UntouchedAppend(a: seq<Line>, b: seq<Line>)
    ensures AckUntouched(a + b) <==> AckUntouched(a) && AckUntouched(b)
    ensures SummaryUntouched(a + b) <==> SummaryUntouched(a) && SummaryUntouched(b)
  {
    assert forall j | 0 <= j < |a| :: (a + b)[j] == a[j];
    assert forall j | 0 <= j < |b| :: (a + b)[|a| + j] == b[j];
  }

  lemma {:induction false} KeptIsEnough(intent: Intent, r: Runtime, q: Runtime, lines: seq<Line>)
    requires Kept(intent, r) == Kept(intent, q)
    ensures Kept(intent, Fold(r, lines)) == Kept(intent, Fold(q, lines))
  {
    hide AckValid, SummaryValid, Fold, AckUntouched, SummaryUntouched;
    FoldOverwrites(r, lines);
    FoldOverwrites(q, lines);
  }

  /** Reading a prefix first, keeping only what is valid, changes nothing about reading the whole. */
  lemma ReplayChangesNothing(intent: Intent, r: Runtime, a: seq<Line>, b: seq<Line>)
    ensures Kept(intent, Fold(Kept(intent, Fold(r, a)), a + b)) == Kept(intent, Fold(r, a + b))
  {
    hide AckValid, SummaryValid, Fold, AckUntouched, SummaryUntouched;
    UntouchedAppend(a, b);
    FoldOverwrites(r, a);
    FoldOverwrites(r, a + b);
    FoldOverwrites(Kept(intent, Fold(r, a)), a + b);
  }

  /** Re-reading from further back than before gives the fold of everything re-read, provided what was read first
      is part of it. */
  lemma ReplayFromFurtherBack(intent: Intent, a: seq<Line>, b: seq<Line>)
    ensures Kept(intent, Fold(Kept(intent, Fold(NOTHING, b)), a + b)) == Kept(intent, Fold(NOTHING, a + b))
  {
    hide AckValid, SummaryValid, Fold, AckUntouched, SummaryUntouched;
    UntouchedAppend(a, b);
    FoldOverwrites(NOTHING, b);
    FoldOverwrites(NOTHING, a + b);
    FoldOverwrites(Kept(intent, Fold(NOTHING, b)), a + b);
  }

  predicate Sorted(log: seq<Line>) {
    forall i, j | 0 <= i < j < |log| :: log[i].at <= log[j].at
  }

  /** The lines stamped at or after an instant. */
  function Since(log: seq<Line>, t: int): seq<Line> {
    if log == [] then []
    else Since(log[..|log| - 1], t) + (if log[|log| - 1].at >= t then [log[|log| - 1]] else [])
  }

  function StartOf(log: seq<Line>, t: int): nat {
    if log == [] then 0 else StartOf(log[..|log| - 1], t) + (if log[|log| - 1].at < t then 1 else 0)
  }

  /** In a sorted log the lines since an instant are a suffix. */
  lemma {:induction false} SinceIsSuffix(log: seq<Line>, t: int)
    requires Sorted(log)
    ensures StartOf(log, t) <= |log| && Since(log, t) == log[StartOf(log, t)..]
    ensures forall i | 0 <= i < |log| :: i < StartOf(log, t) <==> log[i].at < t
  {
    if log != [] {
      var front := log[..|log| - 1];
      assert Sorted(front);
      SinceIsSuffix(front, t);
      if log[|log| - 1].at < t {
        assert forall i | 0 <= i < |front| :: front[i] == log[i] && log[i].at < t && i < StartOf(front, t);
        assert |front| > 0 ==> |front| - 1 < StartOf(front, t);
        assert Since(front, t) == [];
      } else {
        assert log[StartOf(front, t)..] == front[StartOf(front, t)..] + [log[|log| - 1]];
      }
      forall i | 0 <= i < |log| ensures i < StartOf(log, t) <==> log[i].at < t {
        if i < |front| {
          assert front[i] == log[i];
        }
      }
    }
  }
}
