/** Result envelopes (cval/validation/results.py): their JSON form, the parsed record and the translation
    between the two, in the compact layout and in the two historical ones. */
module ResultSchema {
  import opened Wrappers

  /** A JSON string. A stamp is one that reads as a timestamp with a time zone, together with its instant. */
  datatype Text = Plain(chars: string) | Stamp(chars: string, instant: int)

  /** A JSON document. Objects are kept by the role they are read in: every known field is missing or present with
      any value, and unknown holds the other keys. Digest(j) is the sha256 digest string of document j: hashing is
      taken to be injective. */
  datatype Json =
    | Null
    | Bool(b: bool)
    | Int(n: int)
    | Str(text: Text)
    | Arr(items: seq<Json>)
    | Dict(entries: map<string, Json>)
    | Digest(of: Json)
    | TestObject(
        displayName: Option<Json>, enabled: Option<Json>, selected: Option<Json>, order: Option<Json>, status: Option<Json>,
        phase: Option<Json>, startedAt: Option<Json>, completedAt: Option<Json>, durationMs: Option<Json>, exitCode: Option<Json>,
        configPath: Option<Json>, configDigest: Option<Json>, stdout: Option<Json>, stderr: Option<Json>, log: Option<Json>,
        summary: Option<Json>, result: Option<Json>, artifacts: Option<Json>, message: Option<Json>, unknown: set<string>)
    | ErrorObject(
        code: Option<Json>, message: Option<Json>, testId: Option<Json>, timestamp: Option<Json>, detailPath: Option<Json>,
        unknown: set<string>)
    | CompletionObject(
        finishedAt: Option<Json>, exitCode: Option<Json>, logs: Option<Json>, files: Option<Json>, ingestion: Option<Json>,
        stores: Option<Json>, resultDigest: Option<Json>, unknown: set<string>)
    | EnvelopeObject(
        schemaVersion: Option<Json>, runId: Option<Json>, node: Option<Json>, timestamp: Option<Json>, timestampLa: Option<Json>,
        generatedAt: Option<Json>, completedAt: Option<Json>, overall: Option<Json>, imageName: Option<Json>,
        pytorchVersion: Option<Json>, cudaVersion: Option<Json>, gitRef: Option<Json>, globalConfigDigest: Option<Json>,
        tests: Option<Json>, errors: Option<Json>, completion: Option<Json>, unknown: set<string>)

  datatype Schema = Unversioned | V2 | Compact

  datatype TestStatus = Pass | Fail | Incomplete

  datatype TestPhase = NotSelected | Pending | Setup | Running | Finished | SetupFailed | TimedOut | Interrupted | FrameworkError

  datatype TestResult = TestResult(
    displayName: Text, enabled: bool, selected: bool, order: int, status: TestStatus, phase: TestPhase,
    startedAt: Option<Text>, completedAt: Option<Text>, durationMs: Option<int>, exitCode: Option<int>,
    configPath: Text, configDigest: Text, stdout: Text, stderr: Text, log: Text, summary: Text, result: Text,
    artifacts: Text, message: Text)

  datatype ErrorRecord = ErrorRecord(code: Text, message: Text, testId: Option<Text>, timestamp: Text, detailPath: Text)

  datatype Envelope = Envelope(
    schema: Schema, runId: Text, node: Text, timestamp: int, timestampLa: Text, generatedAt: Text,
    completedAt: Option<Text>, overall: TestStatus, imageName: Text, pytorchVersion: Text, cudaVersion: Text,
    gitRef: Text, globalConfigDigest: Text, tests: map<string, TestResult>, errors: seq<ErrorRecord>, completion: Json)

  const EMPTY := Plain("")

  function Word(s: string): Json {
    Str(Plain(s))
  }

  function SchemaName(s: Schema): string {
    match s
    case Unversioned => "cval.results"
    case V2 => "cval.results.v2"
    case Compact => "cval.results.v3"
  }

  function SchemaOf(j: Json): Option<Schema> {
    if j == Word("cval.results") then Some(Unversioned)
    else if j == Word("cval.results.v2") then Some(V2)
    else if j == Word("cval.results.v3") then Some(Compact)
    else None
  }

  function StatusName(s: TestStatus): string {
    match s
    case Pass => "pass"
    case Fail => "fail"
    case Incomplete => "incomplete"
  }

  function StatusOf(j: Json): Option<TestStatus> {
    if j == Word("pass") then Some(Pass)
    else if j == Word("fail") then Some(Fail)
    else if j == Word("incomplete") then Some(Incomplete)
    else None
  }

  function PhaseName(p: TestPhase): string {
    match p
    case NotSelected => "not_selected"
    case Pending => "pending"
    case Setup => "setup"
    case Running => "running"
    case Finished => "finished"
    case SetupFailed => "setup_failed"
    case TimedOut => "timed_out"
    case Interrupted => "interrupted"
    case FrameworkError => "framework_error"
  }

  function PhaseOf(j: Json): Option<TestPhase> {
    if j == Word("not_selected") then Some(NotSelected)
    else if j == Word("pending") then Some(Pending)
    else if j == Word("setup") then Some(Setup)
    else if j == Word("running") then Some(Running)
    else if j == Word("finished") then Some(Finished)
    else if j == Word("setup_failed") then Some(SetupFailed)
    else if j == Word("timed_out") then Some(TimedOut)
    else if j == Word("interrupted") then Some(Interrupted)
    else if j == Word("framework_error") then Some(FrameworkError)
    else None
  }

  lemma SchemaReadsBack(s: Schema)
    ensures SchemaOf(Word(SchemaName(s))) == Some(s)
  {
  }

  lemma StatusReadsBack(s: TestStatus)
    ensures StatusOf(Word(StatusName(s))) == Some(s)
  {
  }

  lemma PhaseReadsBack(p: TestPhase)
    ensures PhaseOf(Word(PhaseName(p))) == Some(p)
  {
  }

  /** dict.get: a missing key reads as null. */
  function Get(v: Option<Json>): Json {
    if v.Some? then v.value else Null
  }

  predicate IsRequired(v: Option<Json>) {
    Get(v).Str? && Get(v).text.chars != ""
  }

  predicate IsNullable(v: Option<Json>) {
    Get(v).Null? || IsRequired(v)
  }

  predicate IsNullableInt(v: Option<Json>) {
    Get(v).Null? || Get(v).Int?
  }

  function NullableText(v: Option<Json>): Option<Text>
    requires IsNullable(v)
  {
    if Get(v).Null? then None else Some(Get(v).text)
  }

  function NullableInt(v: Option<Json>): Option<int>
    requires IsNullableInt(v)
  {
    if Get(v).Null? then None else Some(Get(v).n)
  }

  function TextJson(t: Option<Text>): Json {
    if t.Some? then Str(t.value) else Null
  }

  function IntJson(n: Option<int>): Json {
    if n.Some? then Int(n.value) else Null
  }

  /** A test object with known fields of the right types; the compact layout has no per-stream paths. */
  predicate TestShape(j: Json, compact: bool) {
    && j.TestObject? && j.unknown == {}
    && (compact ==> j.stdout.None? && j.stderr.None? && j.result.None?)
    && Get(j.enabled).Bool? && Get(j.selected).Bool? && Get(j.order).Int?
    && StatusOf(Get(j.status)).Some? && PhaseOf(Get(j.phase)).Some?
    && IsNullable(j.startedAt) && IsNullable(j.completedAt) && IsNullableInt(j.durationMs) && IsNullableInt(j.exitCode)
    && IsRequired(j.configDigest) && IsRequired(j.configPath) && IsRequired(j.displayName)
    && (!compact ==> Get(j.stdout).Str? && Get(j.stderr).Str? && Get(j.result).Str?)
    && Get(j.log).Str? && Get(j.summary).Str? && Get(j.artifacts).Str? && Get(j.message).Str?
  }

  function TestOf(j: Json, compact: bool): TestResult
    requires TestShape(j, compact)
  {
    TestResult(
      Get(j.displayName).text, Get(j.enabled).b, Get(j.selected).b, Get(j.order).n,
      StatusOf(Get(j.status)).value, PhaseOf(Get(j.phase)).value,
      NullableText(j.startedAt), NullableText(j.completedAt), NullableInt(j.durationMs), NullableInt(j.exitCode),
      Get(j.configPath).text, Get(j.configDigest).text,
      if compact then EMPTY else Get(j.stdout).text, if compact then EMPTY else Get(j.stderr).text,
      Get(j.log).text, Get(j.summary).text, if compact then EMPTY else Get(j.result).text,
      Get(j.artifacts).text, Get(j.message).text)
  }

  /** asdict of one test; the compact layout pops the per-stream paths. */
  function TestPayload(t: TestResult, compact: bool): Json {
    TestObject(
      Some(Str(t.displayName)), Some(Bool(t.enabled)), Some(Bool(t.selected)), Some(Int(t.order)),
      Some(Word(StatusName(t.status))), Some(Word(PhaseName(t.phase))),
      Some(TextJson(t.startedAt)), Some(TextJson(t.completedAt)), Some(IntJson(t.durationMs)), Some(IntJson(t.exitCode)),
      Some(Str(t.configPath)), Some(Str(t.configDigest)),
      if compact then None else Some(Str(t.stdout)), if compact then None else Some(Str(t.stderr)),
      Some(Str(t.log)), Some(Str(t.summary)), if compact then None else Some(Str(t.result)),
      Some(Str(t.artifacts)), Some(Str(t.message)), {})
  }

  predicate ErrorShape(j: Json) {
    && j.ErrorObject? && j.unknown == {}
    && IsRequired(j.code) && IsRequired(j.message) && IsRequired(j.timestamp)
    && (Get(j.testId).Null? || Get(j.testId).Str?) && Get(j.detailPath).Str?
  }

  function ErrorOf(j: Json): ErrorRecord
    requires ErrorShape(j)
  {
    ErrorRecord(Get(j.code).text, Get(j.message).text, if Get(j.testId).Null? then None else Some(Get(j.testId).text),
                Get(j.timestamp).text, Get(j.detailPath).text)
  }

  function ErrorPayload(e: ErrorRecord): Json {
    ErrorObject(Some(Str(e.code)), Some(Str(e.message)), Some(TextJson(e.testId)), Some(Str(e.timestamp)), Some(Str(e.detailPath)), {})
  }

  predicate TestsShape(j: Json, compact: bool) {
    j.Dict? && forall id | id in j.entries :: TestShape(j.entries[id], compact)
  }

  function TestsOf(j: Json, compact: bool): map<string, TestResult>
    requires TestsShape(j, compact)
  {
    map id | id in j.entries :: TestOf(j.entries[id], compact)
  }

  function TestsPayload(tests: map<string, TestResult>, compact: bool): Json {
    Dict(map id | id in tests :: TestPayload(tests[id], compact))
  }

  predicate ErrorsShape(j: Json) {
    j.Arr? && forall i | 0 <= i < |j.items| :: ErrorShape(j.items[i])
  }

  function ErrorsOf(j: Json): seq<ErrorRecord>
    requires ErrorsShape(j)
  {
    seq(|j.items|, i requires 0 <= i < |j.items| => ErrorOf(j.items[i]))
  }

  function ErrorsPayload(errors: seq<ErrorRecord>): Json {
    Arr(seq(|errors|, i requires 0 <= i < |errors| => ErrorPayload(errors[i])))
  }

  predicate HeaderShape(p: Json) {
    && p.EnvelopeObject? && p.unknown == {} && SchemaOf(Get(p.schemaVersion)).Some?
    && IsRequired(p.runId) && IsRequired(p.node) && Get(p.timestamp).Int? && IsRequired(p.timestampLa) && IsRequired(p.generatedAt)
    && IsNullable(p.completedAt) && StatusOf(Get(p.overall)).Some?
    && Get(p.imageName).Str? && Get(p.pytorchVersion).Str? && Get(p.cudaVersion).Str? && Get(p.gitRef).Str?
    && IsRequired(p.globalConfigDigest)
  }

  function SchemaIn(p: Json): Schema
    requires HeaderShape(p)
  {
    SchemaOf(Get(p.schemaVersion)).value
  }

  /** An envelope of known fields and right types; only the compact layout may carry a completion. */
  predicate EnvelopeShape(p: Json) {
    && HeaderShape(p)
    && (SchemaIn(p) != Compact ==> p.completion.None?)
    && TestsShape(Get(p.tests), SchemaIn(p) == Compact) && ErrorsShape(Get(p.errors))
  }

  function EnvelopeOf(p: Json): Envelope
    requires EnvelopeShape(p)
  {
    Envelope(
      SchemaIn(p), Get(p.runId).text, Get(p.node).text, Get(p.timestamp).n, Get(p.timestampLa).text, Get(p.generatedAt).text,
      NullableText(p.completedAt), StatusOf(Get(p.overall)).value, Get(p.imageName).text, Get(p.pytorchVersion).text,
      Get(p.cudaVersion).text, Get(p.gitRef).text, Get(p.globalConfigDigest).text,
      TestsOf(Get(p.tests), SchemaIn(p) == Compact), ErrorsOf(Get(p.errors)), Get(p.completion))
  }

  /** result_payload. */
  function Payload(r: Envelope): (p: Json)
    ensures p.EnvelopeObject?
  {
    EnvelopeObject(
      Some(Word(SchemaName(r.schema))), Some(Str(r.runId)), Some(Str(r.node)), Some(Int(r.timestamp)), Some(Str(r.timestampLa)),
      Some(Str(r.generatedAt)), Some(TextJson(r.completedAt)), Some(Word(StatusName(r.overall))), Some(Str(r.imageName)),
      Some(Str(r.pytorchVersion)), Some(Str(r.cudaVersion)), Some(Str(r.gitRef)), Some(Str(r.globalConfigDigest)),
      Some(TestsPayload(r.tests, r.schema == Compact)), Some(ErrorsPayload(r.errors)),
      if r.schema == Compact then Some(r.completion) else None, {})
  }

  /** validation_result_v2_digest: the completion is popped before hashing. */
  function DigestOf(r: Envelope): Json {
    var p := Payload(r);
    Digest(p.(completion := None))
  }

  /** The texts that the parser requires to be non-empty. */
  predicate TestTyped(t: TestResult, compact: bool) {
    && t.configDigest.chars != "" && t.configPath.chars != "" && t.displayName.chars != ""
    && (t.startedAt.Some? ==> t.startedAt.value.chars != "") && (t.completedAt.Some? ==> t.completedAt.value.chars != "")
    && (compact ==> t.stdout == t.stderr == t.result == EMPTY)
  }

  predicate ErrorTyped(e: ErrorRecord) {
    e.code.chars != "" && e.message.chars != "" && e.timestamp.chars != ""
  }

  predicate EnvelopeTyped(r: Envelope) {
    && r.runId.chars != "" && r.node.chars != "" && r.timestampLa.chars != "" && r.generatedAt.chars != ""
    && (r.completedAt.Some? ==> r.completedAt.value.chars != "") && r.globalConfigDigest.chars != ""
    && (forall id | id in r.tests :: TestTyped(r.tests[id], r.schema == Compact))
    && (forall i | 0 <= i < |r.errors| :: ErrorTyped(r.errors[i]))
    && (r.schema != Compact ==> r.completion == Null)
  }

  lemma TestReadBack(t: TestResult, compact: bool)
    requires TestTyped(t, compact)
    ensures TestShape(TestPayload(t, compact), compact) && TestOf(TestPayload(t, compact), compact) == t
  {
    StatusReadsBack(t.status);
    PhaseReadsBack(t.phase);
    hide StatusName, PhaseName, StatusOf, PhaseOf;
  }

  lemma TestOfIsTyped(j: Json, compact: bool)
    requires TestShape(j, compact)
    ensures TestTyped(TestOf(j, compact), compact)
  {
  }

  lemma TestsReadBack(tests: map<string, TestResult>, compact: bool)
    requires forall id | id in tests :: TestTyped(tests[id], compact)
    ensures TestsShape(TestsPayload(tests, compact), compact) && TestsOf(TestsPayload(tests, compact), compact) == tests
  {
    hide TestShape, TestOf, TestPayload, TestTyped;
    forall id | id in tests
      ensures TestShape(TestPayload(tests[id], compact), compact) && TestOf(TestPayload(tests[id], compact), compact) == tests[id]
    {
      TestReadBack(tests[id], compact);
    }
  }

  lemma ErrorsReadBack(errors: seq<ErrorRecord>)
    requires forall i | 0 <= i < |errors| :: ErrorTyped(errors[i])
    ensures ErrorsShape(ErrorsPayload(errors)) && ErrorsOf(ErrorsPayload(errors)) == errors
  {
  }

  lemma ParsedIsTyped(p: Json)
    requires EnvelopeShape(p)
    ensures EnvelopeTyped(EnvelopeOf(p))
  {
    hide StatusOf, PhaseOf, SchemaOf, TestTyped, TestShape, TestOf;
    var tests := Get(p.tests);
    forall id | id in tests.entries ensures TestTyped(TestOf(tests.entries[id], SchemaIn(p) == Compact), SchemaIn(p) == Compact) {
      TestOfIsTyped(tests.entries[id], SchemaIn(p) == Compact);
    }
  }

  /** Writing a typed envelope and reading it back gives the same envelope. */
  lemma EnvelopeReadBack(r: Envelope)
    requires EnvelopeTyped(r)
    ensures EnvelopeShape(Payload(r)) && EnvelopeOf(Payload(r)) == r
  {
    SchemaReadsBack(r.schema);
    StatusReadsBack(r.overall);
    TestsReadBack(r.tests, r.schema == Compact);
    ErrorsReadBack(r.errors);
    hide StatusName, StatusOf, SchemaName, SchemaOf, TestsShape, TestsOf, TestsPayload, ErrorsShape, ErrorsOf, ErrorsPayload, TestTyped, ErrorTyped;
  }

  /** A null completion and a missing one read alike. */
  lemma MissingCompletion(p: Json)
    requires EnvelopeShape(p) && Get(p.completion) == Null
    ensures EnvelopeShape(p.(completion := None)) && EnvelopeOf(p.(completion := None)) == EnvelopeOf(p)
  {
  }
}
