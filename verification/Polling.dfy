/** The polls themselves (_observe_validation_job in cval/jobs/monitor.py): a bounded read of the log since the
    retained cursor, folded onto the retained runtime. */
module Polling {
  import opened Wrappers
  import opened Identifiers
  import opened Tracking

  const MICROS := 1_000_000

  /** What an observation with a log cursor retains; the cursor counts whole seconds. */
  datatype Retained = Retained(cursor: int, runtime: Runtime)

  datatype LogState = Queried | Limited | Unavailable

  /** What one poll reports about ingestion and completion. */
  datatype Report = Report(logState: LogState, ingestionOutcome: string, completionConfirmed: bool)

  function Max(a: int, b: int): int {
    if a < b then b else a
  }

  function Truth(intent: Intent, lines: seq<Line>): Runtime {
    Kept(intent, Fold(NOTHING, lines))
  }

  function Confirmed(selected: set<string>, r: Runtime): bool {
    && r.summary.Some? && r.acknowledgement.Some? && selected != {}
    && var s, a := r.summary.value, r.acknowledgement.value;
    && selected <= s.tests.Keys && (forall t | t in selected :: s.tests[t] == TestState("finished", "pass"))
    && a.status == "pass" && s.ingestionOutcome == "pass"
    && s.stores == a.stores == ExpectedStores(selected)
    && IsDigest(s.resultDigest) && s.resultDigest == a.resultDigest
    && s.status == "pass" && s.testsOutcome == "pass" && s.exitCode == Some(0)
    && s.logsState == "retained" && s.resultState == "finalized"
  }

  function ExpectedStores(selected: set<string>): map<string, string> {
    (map name | name in OWNERS :: if OWNERS[name] in selected then "committed" else "not_required")["validation" := "committed"]
  }

  function IngestionOutcome(r: Runtime): string {
    if r.acknowledgement.Some? then r.acknowledgement.value.status else "unconfirmed"
  }

  /** The index where a replay from the retained cursor starts. */
  function ReplayStart(log: seq<Line>, p: Retained): nat {
    StartOf(log, p.cursor * MICROS)
  }

  /** Everything read since the first poll: from first (moved back by a replay that starts earlier) to end. */
  ghost predicate Tracked(intent: Intent, log: seq<Line>, p: Retained, first: nat, end: nat) {
    && Sorted(log) && first < end <= |log|
    && p.cursor == log[end - 1].at / MICROS
    && Kept(intent, p.runtime) == p.runtime
    && var start := ReplayStart(log, p);
       start < end && Kept(intent, Fold(p.runtime, log[start..end])) == Truth(intent, log[Least(first, start)..end])
  }

  function Least(a: nat, b: nat): nat {
    if a < b then a else b
  }

  lemma FloorBelow(a: int)
    ensures a / MICROS * MICROS <= a < (a / MICROS + 1) * MICROS
  {
  }

  /** The replay starts no later than the last line read: there is no gap. */
  lemma NoGap(log: seq<Line>, end: nat)
    requires Sorted(log) && 0 < end <= |log|
    ensures StartOf(log, log[end - 1].at / MICROS * MICROS) < end
    ensures Since(log, log[end - 1].at / MICROS * MICROS) == log[StartOf(log, log[end - 1].at / MICROS * MICROS)..]
  {
    FloorBelow(log[end - 1].at);
    SinceIsSuffix(log, log[end - 1].at / MICROS * MICROS);
  }

  /** The first read of lines [first, end). */
  lemma FirstReadTracks(intent: Intent, log: seq<Line>, first: nat, end: nat)
    requires Sorted(log) && first < end <= |log|
    ensures Tracked(intent, log, Retained(log[end - 1].at / MICROS, Truth(intent, log[first..end])), first, end)
  {
    hide Fold, Kept, AckValid, SummaryValid, Sorted, StartOf, Since;
    NoGap(log, end);
    KeptTwice(intent, Fold(NOTHING, log[first..end]));
    var start := StartOf(log, log[end - 1].at / MICROS * MICROS);
    if start <= first {
      assert log[start..end] == log[start..first] + log[first..end];
      ReplayFromFurtherBack(intent, log[start..first], log[first..end]);
    } else {
      TruthReplayed(intent, log, first, start, end);
    }
  }

  lemma KeptTwice(intent: Intent, r: Runtime)
    ensures Kept(intent, Kept(intent, r)) == Kept(intent, r)
  {
  }

  /** Folding a suffix onto the truth of everything up to its end changes nothing. */
  lemma TruthReplayed(intent: Intent, log: seq<Line>, first: nat, start: nat, end: nat)
    requires first <= start <= end <= |log|
    ensures Kept(intent, Fold(Truth(intent, log[first..end]), log[start..end])) == Truth(intent, log[first..end])
  {
    hide Fold, Kept, AckValid, SummaryValid;
    var head, tail := log[first..start], log[start..end];
    assert log[first..end] == head + tail;
    FoldOfAppend(NOTHING, head, tail);
    assert tail + [] == tail;
    ReplayChangesNothing(intent, Fold(NOTHING, head), tail, []);
  }

  /** A later read of lines [start, stop) that reaches the previous end is as good as one read of everything. */
  lemma ReachingReadIsExact(intent: Intent, log: seq<Line>, p: Retained, first: nat, end: nat, stop: nat)
    requires Tracked(intent, log, p, first, end) && end <= stop <= |log|
    ensures var start := ReplayStart(log, p);
      Kept(intent, Fold(p.runtime, log[start..stop])) == Truth(intent, log[Least(first, start)..stop])
  {
    hide Fold, Kept, AckValid, SummaryValid, Sorted, StartOf;
    var start := ReplayStart(log, p);
    var from := Least(first, start);
    assert log[start..stop] == log[start..end] + log[end..stop];
    assert log[from..stop] == log[from..end] + log[end..stop];
    FoldOfAppend(p.runtime, log[start..end], log[end..stop]);
    FoldOfAppend(NOTHING, log[from..end], log[end..stop]);
    KeptIsEnough(intent, Fold(p.runtime, log[start..end]), Fold(NOTHING, log[from..end]), log[end..stop]);
  }

  /** After such a read the tracker is where a single read would have put it. */
  lemma ReachingReadTracks(intent: Intent, log: seq<Line>, p: Retained, first: nat, end: nat, stop: nat)
    requires Tracked(intent, log, p, first, end) && end <= stop <= |log|
    ensures var start := ReplayStart(log, p);
      Tracked(intent, log, Retained(log[stop - 1].at / MICROS, Kept(intent, Fold(p.runtime, log[start..stop]))), Least(first, start), stop)
  {
    hide Fold, Kept, AckValid, SummaryValid, StartOf;
    ReachingReadIsExact(intent, log, p, first, end, stop);
    FirstReadTracks(intent, log, Least(first, ReplayStart(log, p)), stop);
  }

  /** A truncated read that stops before the previous end may spoil the retained runtime, but not for good: the cursor
      stays, and the next read that reaches the previous end is exact again. */
  lemma ShortReadTracks(intent: Intent, log: seq<Line>, p: Retained, first: nat, end: nat, stop: nat)
    requires Tracked(intent, log, p, first, end) && ReplayStart(log, p) <= stop < end
    ensures Tracked(intent, log, p.(runtime := Kept(intent, Fold(p.runtime, log[ReplayStart(log, p)..stop]))), first, end)
  {
    hide Fold, Kept, AckValid, SummaryValid, Sorted, StartOf;
    var start := ReplayStart(log, p);
    KeptTwice(intent, Fold(p.runtime, log[start..stop]));
    assert log[start..end] == log[start..stop] + log[stop..end];
    ReplayChangesNothing(intent, p.runtime, log[start..stop], log[stop..end]);
  }

  /** New lines after the tracked ones do not move the replay. */
  lemma TrackedGrows(intent: Intent, log: seq<Line>, more: seq<Line>, p: Retained, first: nat, end: nat)
    requires Tracked(intent, log, p, first, end) && Sorted(log + more)
    ensures Tracked(intent, log + more, p, first, end)
  {
    hide Fold, Kept, AckValid, SummaryValid, StartOf, Sorted;
    SameStart(log, more, p.cursor * MICROS, end);
    var s := ReplayStart(log, p);
    assert (log + more)[end - 1] == log[end - 1];
    assert (log + more)[s..end] == log[s..end];
    assert (log + more)[Least(first, s)..end] == log[Least(first, s)..end];
  }

  lemma SameStart(log: seq<Line>, more: seq<Line>, t: int, end: nat)
    requires Sorted(log) && Sorted(log + more) && StartOf(log, t) < end <= |log|
    ensures StartOf(log + more, t) == StartOf(log, t)
  {
    SinceIsSuffix(log, t);
    SinceIsSuffix(log + more, t);
    hide StartOf;
    var s := StartOf(log, t);
    assert (log + more)[s] == log[s];
    assert s > 0 ==> (log + more)[s - 1] == log[s - 1];
  }

  class Tracker {
    const intent: Intent
    const selected: set<string>
    var log: seq<Line>
    var previous: Option<Retained>
    ghost var first: nat
    ghost var end: nat

    ghost predicate Valid()
      reads this
    {
      Sorted(log) && end <= |log| && (previous.Some? ==> Tracked(intent, log, previous.value, first, end))
    }

    constructor (intent: Intent, selected: set<string>)
      ensures Valid() && log == [] && previous == None && this.intent == intent && this.selected == selected
    {
      this.intent, this.selected := intent, selected;
      log, previous := [], None;
      first, end := 0, 0;
    }

    /** The container writes on; its clock does not run backwards. */
    method Append(more: seq<Line>)
      requires Valid() && Sorted(log + more)
      modifies this
      ensures Valid() && log == old(log) + more && previous == old(previous) && first == old(first) && end == old(end)
    {
      if previous.Some? {
        TrackedGrows(intent, log, more, previous.value, first, end);
      }
      log := log + more;
    }

    /** The event loop of _runtime_progress and its validity filter. */
    method RuntimeProgress(lines: seq<Line>, given: Runtime) returns (r: Runtime)
      ensures r == Kept(intent, Fold(given, lines))
    {
      hide AckValid, SummaryValid;
      var summary, acknowledgement := given.summary, given.acknowledgement;
      for i := 0 to |lines|
        invariant Runtime(summary, acknowledgement) == Fold(given, lines[..i])
      {
        assert lines[..i + 1][..i] == lines[..i];
        match lines[i].event {
          case IngestionStarted => acknowledgement, summary := None, None;
          case IngestionFinished(a) => acknowledgement := Some(a);
          case SupervisorStarted => summary, acknowledgement := None, None;
          case SupervisorFinished(s) => summary := Some(s);
          case Other =>
        }
      }
      assert lines[..|lines|] == lines;
      r := NOTHING;
      if acknowledgement.Some? && AckValid(intent, acknowledgement.value) {
        r := r.(acknowledgement := acknowledgement);
      }
      if summary.Some? && SummaryValid(intent, summary.value) {
        r := r.(summary := summary);
      }
    }

    /** The latest instant read, starting from the retained cursor. */
    method Cursor(lines: seq<Line>, given: Option<Retained>) returns (cursor: Option<int>)
      requires Sorted(lines)
      ensures cursor.None? <==> given.None? && lines == []
      ensures given.None? && lines != [] ==> cursor == Some(lines[|lines| - 1].at)
      ensures given.Some? ==> cursor == Some(if lines == [] then given.value.cursor * MICROS
                                             else Max(given.value.cursor * MICROS, lines[|lines| - 1].at))
    {
      cursor := if given.Some? then Some(given.value.cursor * MICROS) else None;
      for i := 0 to |lines|
        invariant cursor.None? <==> given.None? && i == 0
        invariant given.None? && i > 0 ==> cursor == Some(lines[i - 1].at)
        invariant given.Some? ==> cursor == Some(if i == 0 then given.value.cursor * MICROS
                                                 else Max(given.value.cursor * MICROS, lines[i - 1].at))
      {
        cursor := Some(if cursor.Some? then Max(cursor.value, lines[i].at) else lines[i].at);
      }
    }

    /** The log command: the retained cursor or the tail selects, the byte limit may cut, and it may fail. */
    method ReadLog(tail: nat) returns (ok: bool, limited: bool, lines: seq<Line>, ghost start: nat, ghost stop: nat)
      requires Valid()
      ensures ok ==> start <= stop <= |log| && lines == log[start..stop] && Sorted(lines) && (!limited ==> stop == |log|)
      ensures ok && previous.Some? ==> start == ReplayStart(log, previous.value)
      ensures ok && previous.None? && !limited && log != [] && tail > 0 ==> start < stop
    {
      hide Tracked, StartOf, Since;
      start, stop, limited, lines := 0, 0, false, [];
      ok := *;
      if !ok {
        return;
      }
      if previous.Some? {
        TrackedFacts(intent, log, previous.value, first, end);
        start := ReplayStart(log, previous.value);
        lines := Since(log, previous.value.cursor * MICROS);
      } else {
        start := if tail < |log| then |log| - tail else 0;
        lines := if tail < |log| then log[|log| - tail..] else log;
      }
      assert lines == log[start..];
      stop := |log|;
      limited := *;
      var cut: int := *;
      if limited && 0 <= cut <= |lines| {
        assert log[start..][..cut] == log[start..start + cut];
        lines := lines[..cut];
        stop := start + cut;
      }
      SortedSlice(log, start, stop);
    }

    /** One poll; the byte limit may cut the response anywhere, and any command may fail. */
    method Poll(tail: nat) returns (report: Report, ghost start: nat, ghost stop: nat)
      requires Valid()
      modifies this
      ensures Valid() && log == old(log)
      ensures report.logState == Unavailable ==> previous == old(previous) && first == old(first) && end == old(end)
      ensures report.logState != Unavailable ==> start <= stop <= |log| && (report.logState == Queried ==> stop == |log|)
      ensures report.logState != Unavailable && previous.Some? && stop >= old(end) && (old(previous).Some? || start < stop) ==>
                && end == stop && first == (if old(previous).Some? then Least(old(first), start) else start)
                && previous.value.runtime == Truth(intent, log[first..end])
                && report.ingestionOutcome == IngestionOutcome(Truth(intent, log[first..end]))
                && (report.completionConfirmed <==> report.logState == Queried && Confirmed(selected, Truth(intent, log[first..end])))
      ensures report.logState != Unavailable && old(previous).Some? ==> start == ReplayStart(log, old(previous).value) && previous.Some?
      ensures report.logState == Queried && log != [] && tail > 0 ==> previous.Some? && end == |log| && (start < stop || old(previous).Some?)
      ensures report.completionConfirmed ==> report.logState == Queried
    {
      hide Fold, Kept, AckValid, SummaryValid, Confirmed, Tracked, Sorted, StartOf, Since, IngestionOutcome, Least, Max;
      report := Report(Unavailable, "unconfirmed", false);
      var ok, limited, lines;
      ok, limited, lines, start, stop := ReadLog(tail);
      if !ok {
        return;
      }
      var runtime := RuntimeProgress(lines, if previous.Some? then previous.value.runtime else NOTHING);
      var cursor := Cursor(lines, previous);
      report := Report(if limited then Limited else Queried, IngestionOutcome(runtime), !limited && Confirmed(selected, runtime));
      if cursor.None? {
        return;
      }
      if previous.None? {
        FirstReadTracks(intent, log, start, stop);
        first, end := start, stop;
      } else {
        TrackedFacts(intent, log, previous.value, first, end);
        CursorAfter(intent, log, previous.value, first, end, stop);
        if stop >= end {
          ReachingReadIsExact(intent, log, previous.value, first, end, stop);
          ReachingReadTracks(intent, log, previous.value, first, end, stop);
          first, end := Least(first, start), stop;
        } else {
          ShortReadTracks(intent, log, previous.value, first, end, stop);
        }
      }
      previous := Some(Retained(cursor.value / MICROS, runtime));
    }
  }

  lemma SortedSlice(log: seq<Line>, start: nat, stop: nat)
    requires Sorted(log) && start <= stop <= |log|
    ensures Sorted(log[start..stop])
  {
  }

  lemma TrackedFacts(intent: Intent, log: seq<Line>, p: Retained, first: nat, end: nat)
    requires Tracked(intent, log, p, first, end)
    ensures ReplayStart(log, p) < end <= |log| && Since(log, p.cursor * MICROS) == log[ReplayStart(log, p)..]
  {
    SinceIsSuffix(log, p.cursor * MICROS);
  }

  lemma CursorAfter(intent: Intent, log: seq<Line>, p: Retained, first: nat, end: nat, stop: nat)
    requires Tracked(intent, log, p, first, end) && ReplayStart(log, p) <= stop <= |log|
    ensures stop >= end ==> Max(p.cursor * MICROS, log[stop - 1].at) / MICROS == log[stop - 1].at / MICROS
    ensures ReplayStart(log, p) < stop < end ==> Max(p.cursor * MICROS, log[stop - 1].at) / MICROS == p.cursor
    ensures p.cursor * MICROS / MICROS == p.cursor
  {
  }

  /** A truncated read of [start, stop) keeps what was retained after [first, end), whatever the log holds. */
  ghost predicate CutIsSafe(intent: Intent, first: nat, start: nat, stop: nat, end: nat)
    requires start <= stop <= end
  {
    forall log, p | |log| == end && Tracked(intent, log, p, first, end) && ReplayStart(log, p) == start
                    && p.runtime == Truth(intent, log[first..end]) ::
      Kept(intent, Fold(p.runtime, log[start..stop])) == p.runtime
  }

  function ValidAck(intent: Intent): Acknowledgement {
    Acknowledgement("ingestion", intent.nodeName, intent.configDigest, "fail", "sha256:" + seq(64, i => '0'),
                    map k | k in OWNERS.Keys + {"validation"} :: "unconfirmed")
  }

  /** A log whose replay starts at start, with a reset there and an acknowledgement in its last line. */
  function ResetThenAck(intent: Intent, start: nat, end: nat): seq<Line> {
    seq(end, i => Line(if i < start then 0 else MICROS,
                       if i == start then IngestionStarted else if i == end - 1 then IngestionFinished(ValidAck(intent)) else Other))
  }

  lemma ValidAckIsValid(intent: Intent)
    ensures AckValid(intent, ValidAck(intent))
  {
  }

  lemma ResetThenAckShape(intent: Intent, first: nat, start: nat, end: nat)
    requires first <= start < end - 1
    ensures var log := ResetThenAck(intent, start, end);
      && Sorted(log) && |log| == end && StartOf(log, MICROS) == start && log[end - 1].at / MICROS == 1
      && log[start].event == IngestionStarted
      && (forall i | start < i < end - 1 :: log[i].event == Other)
      && Truth(intent, log[first..end]).acknowledgement == Some(ValidAck(intent))
  {
    hide ValidAck, AckValid, SummaryValid, Fold;
    var log := ResetThenAck(intent, start, end);
    SinceIsSuffix(log, MICROS);
    assert StartOf(log, MICROS) == start by {
      assert log[start].at == MICROS;
      assert start > 0 ==> log[start - 1].at == 0;
    }
    var part := log[first..end];
    assert Survives(part, ValidAck(intent), |part| - 1) by {
      assert part[|part| - 1] == log[end - 1];
    }
    FoldAcknowledgement(NOTHING, part, ValidAck(intent));
    ValidAckIsValid(intent);
  }

  /** The retained state survives every truncated read exactly when the read is empty, or reaches the previous end
      without starting before the first line ever read. */
  lemma CutIsSafeIff(intent: Intent, first: nat, start: nat, stop: nat, end: nat)
    requires start <= stop <= end && start < end && first < end
    ensures CutIsSafe(intent, first, start, stop, end) <==> stop == start || (stop == end && first <= start)
  {
    hide Fold, Kept, AckValid, SummaryValid, Truth, ReplayStart, ResetThenAck, Tracked;
    if stop == start || (stop == end && first <= start) {
      forall log, p | |log| == end && Tracked(intent, log, p, first, end) && ReplayStart(log, p) == start
                      && p.runtime == Truth(intent, log[first..end])
        ensures Kept(intent, Fold(p.runtime, log[start..stop])) == p.runtime
      {
        WholeOrNothing(intent, log, p, first, start, stop, end);
      }
    } else if start < first {
      EarlierLineSpoils(intent, first, start, stop, end);
    } else {
      CutSpoils(intent, first, start, stop, end);
    }
  }

  /** A log whose replay starts at start, with nothing but an acknowledgement there. */
  function AckThenOther(intent: Intent, start: nat, end: nat): seq<Line> {
    seq(end, i => Line(if i < start then 0 else MICROS, if i == start then IngestionFinished(ValidAck(intent)) else Other))
  }

  lemma AckThenOtherShape(intent: Intent, start: nat, end: nat)
    requires start < end
    ensures var log := AckThenOther(intent, start, end);
      && Sorted(log) && |log| == end && StartOf(log, MICROS) == start && log[end - 1].at / MICROS == 1
      && log[start].event == IngestionFinished(ValidAck(intent))
      && forall i | start < i < end :: log[i].event == Other
  {
    hide ValidAck;
    var log := AckThenOther(intent, start, end);
    SinceIsSuffix(log, MICROS);
    assert StartOf(log, MICROS) == start by {
      assert log[start].at == MICROS;
      assert start > 0 ==> log[start - 1].at == 0;
    }
  }

  /** A replay that starts before the first line ever read may bring in an acknowledgement from there. */
  lemma EarlierLineSpoils(intent: Intent, first: nat, start: nat, stop: nat, end: nat)
    requires start < first < end && start < stop <= end
    ensures !CutIsSafe(intent, first, start, stop, end)
  {
    hide AckValid, SummaryValid, Fold, AckThenOther, ValidAck, Tracked;
    var log := AckThenOther(intent, start, end);
    AckThenOtherShape(intent, start, end);
    var p := Retained(1, Truth(intent, log[first..end]));
    FirstReadTracks(intent, log, first, end);
    assert ReplayStart(log, p) == start;
    NothingLearned(log[first..end]);
    AckLearned(p.runtime, log[start..stop], ValidAck(intent));
    ValidAckIsValid(intent);
    assert p.runtime.acknowledgement == None;
  }

  lemma NothingLearned(lines: seq<Line>)
    requires forall i | 0 <= i < |lines| :: lines[i].event == Other
    ensures Fold(NOTHING, lines).acknowledgement == None
  {
    var f := Fold(NOTHING, lines);
    if f.acknowledgement.Some? {
      FoldAcknowledgement(NOTHING, lines, f.acknowledgement.value);
    }
  }

  lemma AckLearned(r: Runtime, lines: seq<Line>, a: Acknowledgement)
    requires lines != [] && lines[0].event == IngestionFinished(a)
    requires forall i | 0 < i < |lines| :: lines[i].event == Other
    ensures Fold(r, lines).acknowledgement == Some(a)
  {
    assert Survives(lines, a, 0);
    FoldAcknowledgement(r, lines, a);
  }

  lemma WholeOrNothing(intent: Intent, log: seq<Line>, p: Retained, first: nat, start: nat, stop: nat, end: nat)
    requires |log| == end && Tracked(intent, log, p, first, end) && ReplayStart(log, p) == start && start <= stop
    requires p.runtime == Truth(intent, log[first..end]) && (stop == start || (stop == end && first <= start))
    ensures Kept(intent, Fold(p.runtime, log[start..stop])) == p.runtime
  {
  }

  lemma CutSpoils(intent: Intent, first: nat, start: nat, stop: nat, end: nat)
    requires first <= start < stop < end
    ensures !CutIsSafe(intent, first, start, stop, end)
  {
    hide AckValid, SummaryValid, Fold, ResetThenAck, Truth, Tracked;
    var log := ResetThenAck(intent, start, end);
    ResetThenAckShape(intent, first, start, end);
    var p := Retained(1, Truth(intent, log[first..end]));
    FirstReadTracks(intent, log, first, end);
    ResetOnly(intent, log, p.runtime, start, stop);
    assert ReplayStart(log, p) == start;
    assert Tracked(intent, log, p, first, end);
  }

  lemma ResetOnly(intent: Intent, log: seq<Line>, r: Runtime, start: nat, stop: nat)
    requires start < stop < |log| && log[start].event == IngestionStarted
    requires forall i | start < i < stop :: log[i].event == Other
    ensures Kept(intent, Fold(r, log[start..stop])).acknowledgement == None
  {
    var part := log[start..stop];
    forall a, i ensures !Survives(part, a, i) {
      assert part[0] == log[start];
      assert 0 < i < |part| ==> part[i] == log[start + i];
    }
    assert part[0].event == IngestionStarted;
    assert !AckUntouched(part);
    var f := Fold(r, part);
    if f.acknowledgement.Some? {
      FoldAcknowledgement(r, part, f.acknowledgement.value);
    }
  }

  /** A whole run of log growth and polls: whenever a poll is complete, it reports what one read of everything since
      the first poll would. */
  method Follow(t: Tracker, rounds: nat, tail: nat) returns (reports: seq<Report>)
    requires t.Valid() && tail > 0
    modifies t
    ensures t.Valid() && |reports| == rounds
    ensures rounds > 0 && reports[rounds - 1].logState == Queried && t.log != [] ==>
              && t.previous.Some? && t.end == |t.log| && t.first < t.end
              && var truth := Truth(t.intent, t.log[t.first..]);
                 t.previous.value.runtime == truth && reports[rounds - 1].ingestionOutcome == IngestionOutcome(truth)
                 && (reports[rounds - 1].completionConfirmed <==> Confirmed(t.selected, truth))
  {
    hide Fold, Kept, AckValid, SummaryValid, Confirmed, Sorted, StartOf, Truth, IngestionOutcome;
    reports := [];
    for i := 0 to rounds
      invariant t.Valid() && |reports| == i
      invariant i > 0 && reports[i - 1].logState == Queried && t.log != [] ==>
              && t.previous.Some? && t.end == |t.log| && t.first < t.end && t.log[t.first..t.end] == t.log[t.first..]
              && var truth := Truth(t.intent, t.log[t.first..]);
                 t.previous.value.runtime == truth && reports[i - 1].ingestionOutcome == IngestionOutcome(truth)
                 && (reports[i - 1].completionConfirmed <==> Confirmed(t.selected, truth))
    {
      var more: seq<Line> := *;
      if Sorted(t.log + more) {
        t.Append(more);
      }
      var report; ghost var start, stop;
      report, start, stop := t.Poll(tail);
      assert t.log[..|t.log|] == t.log;
      assert t.previous.Some? && t.end == |t.log| && t.first <= t.end ==> t.log[t.first..t.end] == t.log[t.first..];
      reports := reports + [report];
    }
  }
}
