/** The supervisor (cval/validation/supervisor.py): run the tests, authorize ingestion, publish the completion record
    last. Children and files are nondeterministic; a Python exception is an outcome. */
module Supervisor {
  import opened Wrappers
  import opened Identifiers
  import opened ResultSchema
  import opened ResultParser

  /** A structured line of the run's job log. authentic: producer, node and both digests are the run's. */
  datatype LogRecord =
    | NotAnEvent
    | Foreign
    | IngestionStarted
    | IngestionFinished(authentic: bool, status: string, stores: map<string, string>)
    | OtherEvent

  datatype Acknowledgement = Acknowledgement(status: string, stores: map<string, string>)

  datatype Child = Exits(code: int) | Throws | Interrupts

  datatype Exit = Returned(code: int) | Raises

  const STORE_STATES: set<string> := {"pending", "not_required", "committed", "unconfirmed"}

  predicate OwnerIngests(r: Envelope, owner: string) {
    owner in r.tests && r.tests[owner].enabled && r.tests[owner].selected && r.tests[owner].status == Pass
  }

  /** The stores a successful ingestion must report, as the supervisor computes them. */
  function RequiredStores(r: Envelope): map<string, string> {
    (map s | s in OWNERS :: if OwnerIngests(r, OWNERS[s]) then "committed" else "not_required")["validation" := "committed"]
  }

  lemma SelectedIsEnabled(p: Json)
    requires Parse(p).Some?
    ensures forall id | id in Parse(p).value.tests && Parse(p).value.tests[id].selected :: Parse(p).value.tests[id].enabled
  {
    hide EnvelopeShape, EnvelopeOf, CompletionFits, HeaderFits, ErrorsFit, TimesFit, PhaseFits, PathsFit, IsTestId, IsDigest, UniqueOrders;
    var r := Parse(p).value;
    assert forall id | id in r.tests :: TestFits(r.tests[id], r.schema == Compact);
  }

  /** The two independently written expectations agree on every parsed result. */
  lemma StoresCoincide(p: Json)
    requires Parse(p).Some?
    ensures RequiredStores(Parse(p).value) == RecordedStores(Parse(p).value)
  {
    SelectedIsEnabled(p);
    SameOwners(Parse(p).value);
  }

  lemma SameOwners(r: Envelope)
    requires forall id | id in r.tests && r.tests[id].selected :: r.tests[id].enabled
    ensures RequiredStores(r) == RecordedStores(r)
  {
  }

  predicate RecordFits(r: Envelope, e: LogRecord) {
    match e
    case Foreign => false
    case IngestionFinished(authentic, status, stores) =>
      && authentic && stores.Keys == OWNERS.Keys + {"validation"} && status in {"pass", "fail"}
      && (forall s | s in stores :: stores[s] in STORE_STATES)
      && (status == "pass" ==> stores == RequiredStores(r))
    case _ => true
  }

  /** The last acknowledgement not followed by a new start. */
  predicate LastAcknowledgement(log: seq<LogRecord>, a: Option<Acknowledgement>) {
    match a
    case Some(ack) =>
      exists i :: && 0 <= i < |log| && log[i].IngestionFinished? && ack == Acknowledgement(log[i].status, log[i].stores)
                  && forall j | i < j < |log| :: !log[j].IngestionStarted? && !log[j].IngestionFinished?
    case None =>
      forall i | 0 <= i < |log| && log[i].IngestionFinished? :: exists j :: i < j < |log| && log[j].IngestionStarted?
  }

  lemma LastWithFinish(log: seq<LogRecord>, e: LogRecord, a: Option<Acknowledgement>)
    requires LastAcknowledgement(log, a)
    ensures e.IngestionFinished? ==> LastAcknowledgement(log + [e], Some(Acknowledgement(e.status, e.stores)))
    ensures e.IngestionStarted? ==> LastAcknowledgement(log + [e], None)
    ensures !e.IngestionStarted? && !e.IngestionFinished? ==> LastAcknowledgement(log + [e], a)
  {
    var next := log + [e];
    assert next[|log|] == e;
    assert forall i | 0 <= i < |log| :: next[i] == log[i];
    if !e.IngestionStarted? && !e.IngestionFinished? {
      match a
      case Some(ack) =>
        var i :| 0 <= i < |log| && log[i].IngestionFinished? && ack == Acknowledgement(log[i].status, log[i].stores)
                 && forall j | i < j < |log| :: !log[j].IngestionStarted? && !log[j].IngestionFinished?;
        assert next[i].IngestionFinished?;
      case None =>
        forall i | 0 <= i < |next| && next[i].IngestionFinished? ensures exists j :: i < j < |next| && next[j].IngestionStarted? {
          var j :| i < j < |log| && log[j].IngestionStarted?;
          assert next[j].IngestionStarted?;
        }
    }
  }

  /** _ingestion_acknowledgement: every record must fit; exit codes are never consulted. */
  method IngestionAcknowledgement(log: seq<LogRecord>, result: Envelope) returns (ok: bool, acknowledgement: Option<Acknowledgement>)
    ensures ok <==> forall i | 0 <= i < |log| :: RecordFits(result, log[i])
    ensures ok ==> LastAcknowledgement(log, acknowledgement)
    ensures ok && acknowledgement.Some? ==>
              && acknowledgement.value.status in {"pass", "fail"}
              && (forall s | s in acknowledgement.value.stores :: acknowledgement.value.stores[s] in STORE_STATES)
              && (acknowledgement.value.status == "pass" ==> acknowledgement.value.stores == RequiredStores(result))
  {
    hide RequiredStores, LastAcknowledgement;
    acknowledgement := None;
    NoAcknowledgement();
    for i := 0 to |log|
      invariant forall j | 0 <= j < i :: RecordFits(result, log[j])
      invariant LastAcknowledgement(log[..i], acknowledgement)
      invariant acknowledgement.Some? ==>
              && acknowledgement.value.status in {"pass", "fail"}
              && (forall s | s in acknowledgement.value.stores :: acknowledgement.value.stores[s] in STORE_STATES)
              && (acknowledgement.value.status == "pass" ==> acknowledgement.value.stores == RequiredStores(result))
    {
      if !RecordFits(result, log[i]) {
        return false, None;
      }
      assert log[..i + 1] == log[..i] + [log[i]];
      LastWithFinish(log[..i], log[i], acknowledgement);
      match log[i] {
        case IngestionStarted => acknowledgement := None;
        case IngestionFinished(_, status, stores) => acknowledgement := Some(Acknowledgement(status, stores));
        case _ =>
      }
    }
    assert log[..|log|] == log;
    ok := true;
  }

  lemma NoAcknowledgement()
    ensures LastAcknowledgement([], None)
  {
  }

  /** One pass over the test evidence: complete, incomplete, or not required. */
  predicate StatesOf(r: Envelope, states: map<string, string>) {
    && states.Keys == r.tests.Keys
    && forall id | id in states :: if r.tests[id].selected then states[id] in {"complete", "incomplete"} else states[id] == "not_required"
  }

  method FileStates(r: Envelope) returns (states: map<string, string>)
    ensures StatesOf(r, states)
  {
    states := map[];
    var todo := r.tests.Keys;
    while todo != {}
      invariant todo <= r.tests.Keys && states.Keys == r.tests.Keys - todo
      invariant forall id | id in states :: if r.tests[id].selected then states[id] in {"complete", "incomplete"} else states[id] == "not_required"
      decreases |todo|
    {
      var id :| id in todo;
      todo := todo - {id};
      var readable: bool := *;
      states := states[id := if !r.tests[id].selected then "not_required" else if readable then "complete" else "incomplete"];
    }
  }

  predicate NoneIncomplete(states: map<string, string>) {
    forall id | id in states :: states[id] != "incomplete"
  }

  /** No incomplete evidence is the same as the recorded file map. */
  lemma FilesCoincide(r: Envelope, states: map<string, string>)
    requires StatesOf(r, states)
    ensures NoneIncomplete(states) <==> states == RecordedFiles(r)
  {
  }

  /** The completion record of the finally block. */
  function CompletionOf(r: Envelope, finishedAt: Text, exitCode: int, logsRetained: bool, states: map<string, string>,
                        ingestion: string, acknowledgement: Option<Acknowledgement>): Json {
    CompletionObject(
      Some(Str(finishedAt)), Some(Int(exitCode)), Some(Word(if logsRetained then "retained" else "unconfirmed")),
      Some(Words(states)), Some(Word(ingestion)),
      Some(Words(if acknowledgement.Some? then acknowledgement.value.stores else map[])), Some(DigestOf(r)), {})
  }

  function Published(r: Envelope, c: Json): Json {
    var p := Payload(r);
    p.(completion := Some(c))
  }

  /** Whatever is published reads back as the result with its completion. */
  lemma PublishedReads(p: Json, c: Json)
    requires Parse(p).Some? && Parse(Published(Parse(p).value, c)).Some?
    ensures Parse(Published(Parse(p).value, c)).value == Parse(p).value.(completion := c)
    ensures Parse(p).value.schema == Compact
  {
    hide EnvelopeFits, EnvelopeTyped, EnvelopeOf;
    var r := Parse(p).value;
    ParsedIsTyped(p);
    OnlyCompactPublishes(r, c);
    StillTyped(r, c);
    EnvelopeReadBack(r.(completion := c));
    assert Payload(r.(completion := c)) == Published(r, c);
  }

  lemma OnlyCompactPublishes(r: Envelope, c: Json)
    requires EnvelopeShape(Published(r, c))
    ensures r.schema == Compact
  {
  }

  /** When the record that the finally block composes is a complete recording. */
  lemma ComposedIsComplete(r: Envelope, finishedAt: Text, exitCode: int, logsRetained: bool, states: map<string, string>,
                           ingestion: string, acknowledgement: Option<Acknowledgement>)
    ensures RecordingComplete(r.(completion := CompletionOf(r, finishedAt, exitCode, logsRetained, states, ingestion, acknowledgement)))
        <==> r.completedAt.Some? && exitCode == 0 && logsRetained && states == RecordedFiles(r) && ingestion == "pass"
             && (if acknowledgement.Some? then acknowledgement.value.stores else map[]) == RecordedStores(r)
  {
    var c := CompletionOf(r, finishedAt, exitCode, logsRetained, states, ingestion, acknowledgement);
    assert RecordedFiles(r.(completion := c)) == RecordedFiles(r);
    SameRecordedStores(r, c);
    ComposedRecordsAll(r, finishedAt, exitCode, logsRetained, states, ingestion, acknowledgement, RecordedFiles(r), RecordedStores(r));
    hide RecordsAll, CompletionOf, RecordedFiles, RecordedStores;
  }

  lemma ComposedRecordsAll(r: Envelope, finishedAt: Text, exitCode: int, logsRetained: bool, states: map<string, string>,
                           ingestion: string, acknowledgement: Option<Acknowledgement>, files: map<string, string>,
                           stores: map<string, string>)
    ensures RecordsAll(CompletionOf(r, finishedAt, exitCode, logsRetained, states, ingestion, acknowledgement), files, stores)
        <==> exitCode == 0 && logsRetained && states == files && ingestion == "pass"
             && (if acknowledgement.Some? then acknowledgement.value.stores else map[]) == stores
  {
    WordsAreInjective(states, files);
    WordsAreInjective(if acknowledgement.Some? then acknowledgement.value.stores else map[], stores);
    LogWords(logsRetained);
    hide Words, DigestOf;
  }

  lemma LogWords(logsRetained: bool)
    ensures Word(if logsRetained then "retained" else "unconfirmed") == Word("retained") <==> logsRetained
  {
  }

  lemma SameRecordedStores(r: Envelope, c: Json)
    ensures RecordedStores(r.(completion := c)) == RecordedStores(r)
  {
  }

  /** Where the try block left the run. */
  datatype Progress = Progress(exit: Exit, exitCode: int, result: Option<Envelope>, ingestion: string,
                               acknowledgement: Option<Acknowledgement>, logsRetained: bool)

  /** What is known of it: exit code zero means every stage succeeded, and a passing ingestion always rests on an
      acknowledgement of the required stores. */
  predicate ProgressFits(file: Json, ingestionRequested: bool, p: Progress) {
    && (p.exit == Returned(0) <==> p.exitCode == 0)
    && (p.result.Some? ==> Parse(file) == p.result && p.result.value.schema == Compact)
    && (p.exitCode == 0 ==> p.result.Some? && p.logsRetained && (ingestionRequested ==> p.ingestion == "pass"))
    && (p.ingestion == "pass" ==>
          && ingestionRequested && p.result.Some? && p.acknowledgement.Some?
          && p.acknowledgement.value.stores == RequiredStores(p.result.value))
  }

  /** The try block: the runner, the binding of its result, ingestion, and the evidence check. */
  method RunStages(file: Json, log: seq<LogRecord>, ingestionRequested: bool) returns (p: Progress)
    ensures ProgressFits(file, ingestionRequested, p)
  {
    hide Parse, RequiredStores, LastAcknowledgement, StatesOf;
    p := Progress(Raises, 1, None, if ingestionRequested then "not_started" else "not_requested", None, true);
    var runner: Child := *;
    match runner {
      case Throws => return p.(logsRetained := false);
      case Interrupts => return p.(exit := Returned(143), exitCode := 143, logsRetained := false);
      case Exits(code) =>
        if code != 0 {
          return p.(exit := Returned(code), exitCode := code);
        }
    }
    var bound: bool := *;
    var result := ParseValidationResultV2(file);
    if !bound || result.None? || result.value.schema != Compact {
      return;
    }
    p := p.(result := result);
    if ingestionRequested {
      var child: Child := *;
      p := p.(ingestion := "unconfirmed");
      match child {
        case Throws => return p.(logsRetained := false);
        case Interrupts => return p.(exit := Returned(143), exitCode := 143, logsRetained := false);
        case Exits(code) =>
          var ok, acknowledgement := IngestionAcknowledgement(log, result.value);
          if !ok {
            return;
          }
          if acknowledgement.Some? {
            p := p.(acknowledgement := acknowledgement, ingestion := acknowledgement.value.status);
          }
          if code != 0 {
            return p.(exit := Returned(code), exitCode := code);
          }
          if p.ingestion != "pass" {
            return;
          }
      }
    }
    var states := FileStates(result.value);
    if !NoneIncomplete(states) {
      return;
    }
    var last: Child := *;
    match last {
      case Throws =>
      case Interrupts => p := p.(exit := Returned(143), exitCode := 143);
      case Exits(_) => p := p.(exit := Returned(0), exitCode := 0);
    }
  }

  /** supervise_validation_run. The published record is accepted by the parser. A zero exit with ingestion records
      completely exactly when the result is terminal and no evidence went missing after the last check; nothing else
      ever publishes a complete recording, short of a failing directory sync after publication. */
  method SuperviseValidationRun(file: Json, log: seq<LogRecord>, ingestionRequested: bool)
    returns (exit: Exit, published: Option<Json>, ghost lastStates: map<string, string>, ghost syncFailed: bool)
    ensures published.Some? ==> Parse(published.value).Some?
    ensures exit == Returned(0) && ingestionRequested ==>
              && published.Some?
              && (RecordingComplete(Parse(published.value).value)
                  <==> Parse(published.value).value.completedAt.Some? && NoneIncomplete(lastStates))
    ensures published.Some? && RecordingComplete(Parse(published.value).value) ==>
              ingestionRequested && (exit == Returned(0) || (exit == Raises && syncFailed))
  {
    hide Parse, RequiredStores, RecordedStores, RecordedFiles, StatesOf, NoneIncomplete, RecordingComplete, CompletionOf, Published;
    published, lastStates, syncFailed := None, map[], false;
    var p := RunStages(file, log, ingestionRequested);
    exit := p.exit;
    var verified: bool := *;
    if !verified {
      return Raises, None, lastStates, false;
    }
    var result := p.result;
    if result.None? {
      result := ParseValidationResultV2(file);
      if result.None? {
        return;
      }
    }
    var r := result.value;
    var now: int := *;
    var states := FileStates(r);
    lastStates := states;
    var c := CompletionOf(r, Stamp("utc", now), p.exitCode, p.logsRetained, states, p.ingestion, p.acknowledgement);
    var accepted := ParseValidationResultV2(Published(r, c));
    if accepted.None? {
      return Raises, None, lastStates, false;
    }
    PublishedReads(file, c);
    ComposedIsComplete(r, Stamp("utc", now), p.exitCode, p.logsRetained, states, p.ingestion, p.acknowledgement);
    StoresCoincide(file);
    FilesCoincide(r, states);
    var renamed: bool, synced: bool := *, *;
    if !renamed {
      return Raises, None, lastStates, false;
    }
    published := Some(Published(r, c));
    if !synced {
      return Raises, published, lastStates, true;
    }
  }

  /** The condition cannot be dropped: evidence that disappears between the two checks leaves an accepted but
      incomplete recording behind a zero exit. */
  lemma LateLossIsNotRecorded(r: Envelope, id: string, finishedAt: Text, acknowledgement: Acknowledgement, states: map<string, string>)
    requires id in r.tests && r.tests[id].selected && StatesOf(r, states) && states[id] == "incomplete"
    ensures !RecordingComplete(r.(completion := CompletionOf(r, finishedAt, 0, true, states, "pass", Some(acknowledgement))))
  {
    ComposedIsComplete(r, finishedAt, 0, true, states, "pass", Some(acknowledgement));
  }
}
