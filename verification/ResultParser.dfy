/** The strict envelope parser (cval/validation/results.py): what it accepts, its round trip with the writer, and
    the completion record. */
module ResultParser {
  import opened Wrappers
  import opened Identifiers
  import opened ResultSchema

  const MICROS := 1_000_000

  predicate Terminal(p: TestPhase) {
    p.NotSelected? || p.Finished? || p.SetupFailed? || p.TimedOut? || p.Interrupted? || p.FrameworkError?
  }

  predicate IsStamp(t: Option<Text>) {
    t.Some? ==> t.value.Stamp?
  }

  /** The status, times and exit code that each phase allows. */
  predicate PhaseFits(t: TestResult) {
    match t.phase
    case NotSelected =>
      !t.selected && t.status == Incomplete && t.startedAt == t.completedAt == None && t.durationMs == t.exitCode == None
    case Pending =>
      t.startedAt == t.completedAt == None && t.durationMs == t.exitCode == None && t.status == Incomplete
    case Setup | Running =>
      t.startedAt.Some? && t.completedAt == None && t.status == Incomplete && t.durationMs == t.exitCode == None
    case Finished =>
      t.completedAt.Some? && (if t.status == Pass then t.exitCode == Some(0) else t.status == Fail && t.exitCode.Some? && t.exitCode != Some(0))
    case SetupFailed =>
      t.status == Fail && t.completedAt.Some? && t.exitCode.Some? && t.exitCode != Some(0)
    case TimedOut | FrameworkError =>
      t.status == Fail && t.completedAt.Some? && t.exitCode != Some(0)
    case Interrupted =>
      t.status == Incomplete && t.completedAt.Some?
  }

  predicate TimesFit(t: TestResult) {
    && IsStamp(t.startedAt) && IsStamp(t.completedAt)
    && (t.completedAt.Some? ==> t.startedAt.Some? && t.completedAt.value.instant >= t.startedAt.value.instant)
    && (t.durationMs.Some? ==> t.durationMs.value >= 0)
    && (Terminal(t.phase) && !t.phase.NotSelected? ==> t.durationMs.Some?)
  }

  predicate PathsFit(t: TestResult, compact: bool) {
    && '\0' !in t.configPath.chars + t.stdout.chars + t.stderr.chars + t.log.chars + t.summary.chars + t.result.chars + t.artifacts.chars
    && (t.selected ==>
          && t.configPath.chars != "" && t.log.chars != "" && t.summary.chars != "" && t.artifacts.chars != ""
          && (compact || (t.stdout.chars != "" && t.stderr.chars != "" && t.result.chars != "")))
  }

  /** The checks of _parse_v2_test. */
  predicate TestFits(t: TestResult, compact: bool) {
    && (t.selected ==> t.enabled) && t.order >= 0
    && (!t.selected ==> t.status == Incomplete && t.phase == NotSelected)
    && TimesFit(t) && PhaseFits(t) && IsDigest(t.configDigest.chars) && PathsFit(t, compact)
  }

  predicate Participates(t: TestResult) {
    t.enabled && t.selected
  }

  predicate AnyFails(tests: map<string, TestResult>) {
    exists id :: id in tests && Participates(tests[id]) && tests[id].status == Fail
  }

  predicate AllPass(tests: map<string, TestResult>) {
    forall id | id in tests && Participates(tests[id]) :: tests[id].status == Pass
  }

  predicate NoneParticipates(tests: map<string, TestResult>) {
    forall id | id in tests :: !Participates(tests[id])
  }

  function ExpectedOverall(tests: map<string, TestResult>): TestStatus {
    if NoneParticipates(tests) then Incomplete
    else if AnyFails(tests) then Fail
    else if AllPass(tests) then Pass
    else Incomplete
  }

  predicate AllTerminal(tests: map<string, TestResult>) {
    forall id | id in tests && Participates(tests[id]) :: Terminal(tests[id].phase)
  }

  predicate UniqueOrders(tests: map<string, TestResult>) {
    forall a, b | a in tests && b in tests && a != b && tests[a].selected && tests[b].selected :: tests[a].order != tests[b].order
  }

  predicate NoneCompletedAfter(tests: map<string, TestResult>, instant: int) {
    forall id | id in tests && tests[id].completedAt.Some? && tests[id].completedAt.value.Stamp? ::
      tests[id].completedAt.value.instant <= instant
  }

  /** datetime.timestamp() truncated by int(). */
  function Seconds(instant: int): int {
    if instant >= 0 then instant / MICROS else -((-instant) / MICROS)
  }

  predicate HeaderFits(r: Envelope) {
    && IsSegment(r.runId.chars) && IsSegment(r.node.chars) && r.timestamp >= 0
    && r.timestampLa.Stamp? && r.generatedAt.Stamp? && IsStamp(r.completedAt)
    && Seconds(r.timestampLa.instant) == r.timestamp && IsDigest(r.globalConfigDigest.chars)
  }

  predicate ErrorsFit(errors: seq<ErrorRecord>) {
    forall i | 0 <= i < |errors| :: errors[i].timestamp.Stamp? && (errors[i].testId.Some? ==> IsTestId(errors[i].testId.value.chars))
  }

  predicate TestsFit(tests: map<string, TestResult>, compact: bool) {
    tests != map[] && (forall id | id in tests :: IsTestId(id) && TestFits(tests[id], compact)) && UniqueOrders(tests)
  }

  predicate BodyFits(r: Envelope) {
    && HeaderFits(r) && TestsFit(r.tests, r.schema == Compact) && r.overall == ExpectedOverall(r.tests)
    && (r.completedAt.Some? <==> AllTerminal(r.tests))
    && (r.completedAt.Some? ==> NoneCompletedAfter(r.tests, r.completedAt.value.instant))
    && ErrorsFit(r.errors)
  }

  predicate InWords(j: Json, words: set<string>) {
    j.Str? && j.text.Plain? && j.text.chars in words
  }

  /** _validate_completion. */
  predicate CompletionFits(r: Envelope, c: Json) {
    && c.CompletionObject? && c.unknown == {}
    && c.finishedAt.Some? && c.exitCode.Some? && c.logs.Some? && c.files.Some? && c.ingestion.Some? && c.stores.Some?
    && c.finishedAt.value.Str? && c.finishedAt.value.text.Stamp?
    && (r.completedAt.Some? && r.completedAt.value.Stamp? ==> c.finishedAt.value.text.instant >= r.completedAt.value.instant)
    && c.exitCode.value.Int? && InWords(c.logs.value, {"retained", "unconfirmed"})
    && InWords(c.ingestion.value, {"pass", "fail", "unconfirmed", "not_started", "not_requested"})
    && c.files.value.Dict? && c.files.value.entries.Keys == r.tests.Keys
    && (forall id | id in c.files.value.entries :: InWords(c.files.value.entries[id], {"complete", "incomplete", "not_required", "unconfirmed"}))
    && c.stores.value.Dict?
    && (forall s | s in c.stores.value.entries :: InWords(c.stores.value.entries[s], {"pending", "committed", "not_required", "unconfirmed"}))
    && c.resultDigest == Some(DigestOf(r))
  }

  predicate EnvelopeFits(r: Envelope) {
    BodyFits(r) && (r.completion.Null? || CompletionFits(r, r.completion))
  }

  /** parse_validation_result_v2 as a function; None stands for every ValueError. */
  function Parse(p: Json): Option<Envelope> {
    if EnvelopeShape(p) && EnvelopeFits(EnvelopeOf(p)) then Some(EnvelopeOf(p)) else None
  }

  /** What the parser returned is written and parsed back unchanged, in every layout. */
  lemma RoundTrip(p: Json)
    requires Parse(p).Some?
    ensures Parse(Payload(Parse(p).value)) == Parse(p)
  {
    hide EnvelopeFits, EnvelopeShape, EnvelopeOf, Payload, EnvelopeTyped;
    ParsedIsTyped(p);
    EnvelopeReadBack(EnvelopeOf(p));
  }

  /** The digest does not depend on the completion, absent or present. */
  lemma DigestIgnoresCompletion(r: Envelope, c: Json)
    ensures DigestOf(r.(completion := c)) == DigestOf(r)
  {
  }

  /** Distinct executions have distinct digests. */
  lemma DigestIsInjective(p: Json, q: Json)
    requires Parse(p).Some? && Parse(q).Some? && DigestOf(Parse(p).value) == DigestOf(Parse(q).value)
    ensures Parse(p).value.(completion := Null) == Parse(q).value.(completion := Null)
  {
    hide EnvelopeFits, EnvelopeShape, EnvelopeOf, EnvelopeTyped, Payload;
    var r, s := Parse(p).value.(completion := Null), Parse(q).value.(completion := Null);
    ParsedIsTyped(p);
    ParsedIsTyped(q);
    TypedWithoutCompletion(Parse(p).value);
    TypedWithoutCompletion(Parse(q).value);
    DigestIgnoresCompletion(Parse(p).value, Null);
    DigestIgnoresCompletion(Parse(q).value, Null);
    SamePayload(r, s);
    EnvelopeReadBack(r);
    EnvelopeReadBack(s);
  }

  lemma TypedWithoutCompletion(r: Envelope)
    requires EnvelopeTyped(r)
    ensures EnvelopeTyped(r.(completion := Null))
  {
  }

  lemma SamePayload(r: Envelope, s: Envelope)
    requires DigestOf(r) == DigestOf(s) && r.completion == s.completion == Null
    ensures Payload(r) == Payload(s)
  {
  }

  /** The publication step: a valid completion added to a parsed compact result is accepted as it stands. */
  lemma CompletionIsAccepted(p: Json, c: Json)
    requires Parse(p).Some? && Parse(p).value.schema == Compact && CompletionFits(Parse(p).value, c)
    ensures Parse(Payload(Parse(p).value).(completion := Some(c))) == Some(Parse(p).value.(completion := c))
  {
    hide EnvelopeShape, EnvelopeOf, EnvelopeTyped, BodyFits, SchemaName;
    var r := Parse(p).value;
    var s := r.(completion := c);
    ParsedIsTyped(p);
    StillTyped(r, c);
    EnvelopeReadBack(s);
    DigestIgnoresCompletion(r, c);
    StillFits(r, c);
    CompletionStillFits(r, c);
    assert Payload(s) == Payload(r).(completion := Some(c));
    hide CompletionFits, Payload, DigestOf;
  }

  lemma StillTyped(r: Envelope, c: Json)
    requires EnvelopeTyped(r) && r.schema == Compact
    ensures EnvelopeTyped(r.(completion := c))
  {
  }

  lemma StillFits(r: Envelope, c: Json)
    requires BodyFits(r)
    ensures BodyFits(r.(completion := c))
  {
  }

  lemma CompletionStillFits(r: Envelope, c: Json)
    requires CompletionFits(r, c)
    ensures CompletionFits(r.(completion := c), c)
  {
    DigestIgnoresCompletion(r, c);
    hide DigestOf, InWords;
  }

  predicate OwnerPasses(r: Envelope, owner: string) {
    owner in r.tests && r.tests[owner].selected && r.tests[owner].status == Pass
  }

  function Words(m: map<string, string>): Json {
    Dict(map k | k in m :: Word(m[k]))
  }

  /** The store states a complete recording must show. */
  function RecordedStores(r: Envelope): map<string, string> {
    (map s | s in OWNERS :: if OwnerPasses(r, OWNERS[s]) then "committed" else "not_required")["validation" := "committed"]
  }

  function RecordedFiles(r: Envelope): map<string, string> {
    map id | id in r.tests :: if r.tests[id].selected then "complete" else "not_required"
  }

  lemma WordsAreInjective(a: map<string, string>, b: map<string, string>)
    ensures Words(a) == Words(b) ==> a == b
  {
    if Words(a) == Words(b) {
      assert a.Keys == Words(a).entries.Keys && b.Keys == Words(b).entries.Keys;
      forall k | k in a ensures a[k] == b[k] {
        assert Words(a).entries[k] == Words(b).entries[k];
      }
    }
  }

  predicate RecordsAll(c: Json, files: map<string, string>, stores: map<string, string>) {
    && c.CompletionObject?
    && c.exitCode == Some(Int(0)) && c.logs == Some(Word("retained")) && c.files == Some(Words(files))
    && c.ingestion == Some(Word("pass")) && c.stores == Some(Words(stores))
  }

  /** recording_complete. */
  predicate RecordingComplete(r: Envelope) {
    r.completedAt.Some? && RecordsAll(r.completion, RecordedFiles(r), RecordedStores(r))
  }

  /** The loop of the parser over the tests, with its table of selected orders. */
  method ReadTests(tests: map<string, TestResult>, compact: bool) returns (ok: bool)
    ensures ok <==> TestsFit(tests, compact)
  {
    hide IsTestId, TestFits;
    if tests == map[] {
      return false;
    }
    var selectedOrders: map<int, string> := map[];
    var todo := tests.Keys;
    while todo != {}
      invariant todo <= tests.Keys
      invariant forall id | id in tests.Keys - todo :: IsTestId(id) && TestFits(tests[id], compact)
      invariant forall o | o in selectedOrders ::
        selectedOrders[o] in tests.Keys - todo && tests[selectedOrders[o]].selected && tests[selectedOrders[o]].order == o
      invariant forall id | id in tests.Keys - todo && tests[id].selected :: tests[id].order in selectedOrders && selectedOrders[tests[id].order] == id
      decreases |todo|
    {
      var id :| id in todo;
      if !IsTestId(id) || !TestFits(tests[id], compact) {
        return false;
      }
      var test := tests[id];
      if test.selected {
        if test.order in selectedOrders {
          assert selectedOrders[test.order] != id;
          return false;
        }
        selectedOrders := selectedOrders[test.order := id];
      }
      todo := todo - {id};
    }
    assert tests.Keys - todo == tests.Keys;
    ok := true;
  }

  /** parse_validation_result_v2. */
  method ParseValidationResultV2(payload: Json) returns (r: Option<Envelope>)
    ensures r == Parse(payload)
  {
    hide EnvelopeShape, EnvelopeOf, TestsFit, HeaderFits, CompletionFits, ErrorsFit, ExpectedOverall, AllTerminal, NoneCompletedAfter;
    if !EnvelopeShape(payload) {
      return None;
    }
    var e := EnvelopeOf(payload);
    if !HeaderFits(e) {
      return None;
    }
    var ok := ReadTests(e.tests, e.schema == Compact);
    if !ok || e.overall != ExpectedOverall(e.tests) || (AllTerminal(e.tests) != e.completedAt.Some?) {
      return None;
    }
    if e.completedAt.Some? {
      HeaderStamps(e);
      if !NoneCompletedAfter(e.tests, e.completedAt.value.instant) {
        return None;
      }
    }
    if !ErrorsFit(e.errors) || !(e.completion.Null? || CompletionFits(e, e.completion)) {
      return None;
    }
    r := Some(e);
  }

  lemma HeaderStamps(r: Envelope)
    requires HeaderFits(r)
    ensures IsStamp(r.completedAt)
  {
  }
}
