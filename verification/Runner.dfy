/** The in-pod runner (cval/validation/runner.py): one result, updated in place phase by phase, whose every written
    state the strict parser accepts. Only the process calls fail. */
module Runner {
  import opened Wrappers
  import opened Identifiers
  import opened ResultSchema
  import opened ResultParser

  datatype Registered = Registered(id: string, enabled: bool, displayName: Text, order: int, configPath: Text, configDigest: Text,
                                   log: Text, summary: Text, artifacts: Text)

  /** What the loader promises of a registry: distinct ids, and distinct orders among the enabled tests. */
  predicate RegistryFits(registry: seq<Registered>) {
    && registry != []
    && (forall i | 0 <= i < |registry| :: RegisteredFits(registry[i]))
    && (forall i, j | 0 <= i < j < |registry| ::
          registry[i].id != registry[j].id && (registry[i].enabled && registry[j].enabled ==> registry[i].order != registry[j].order))
  }

  predicate RegisteredFits(t: Registered) {
    && IsTestId(t.id) && t.order >= 0 && t.displayName.chars != "" && IsDigest(t.configDigest.chars)
    && t.configPath.chars != "" && t.log.chars != "" && t.summary.chars != "" && t.artifacts.chars != ""
    && '\0' !in t.configPath.chars + t.log.chars + t.summary.chars + t.artifacts.chars
  }

  /** What the environment fixes for the run. */
  datatype Identity = Identity(runId: Text, node: Text, timestamp: int, timestampLa: Text, imageName: Text, pytorchVersion: Text,
                               cudaVersion: Text, gitRef: Text, configDigest: Text)

  predicate IdentityFits(i: Identity) {
    && IsSegment(i.runId.chars) && IsSegment(i.node.chars) && i.timestamp >= 0
    && i.timestampLa.Stamp? && i.timestampLa.chars != "" && Seconds(i.timestampLa.instant) == i.timestamp
    && IsDigest(i.configDigest.chars)
  }

  datatype ProcessOutcome = Exited(code: int) | Expired | Interrupt | Raised(message: string)

  /** _initial_result, one test. */
  function InitialTest(t: Registered): TestResult {
    TestResult(t.displayName, t.enabled, t.enabled, t.order, Incomplete, if t.enabled then Pending else NotSelected,
               None, None, None, None, t.configPath, t.configDigest, EMPTY, EMPTY,
               if t.enabled then t.log else EMPTY, if t.enabled then t.summary else EMPTY, EMPTY,
               if t.enabled then t.artifacts else EMPTY, if t.enabled then EMPTY else Plain("disabled by config"))
  }

  /** The runner's dictionary has no completion key. */
  function Written(r: Envelope): Json {
    var p := Payload(r);
    p.(completion := None)
  }

  predicate TimeBy(t: Option<Text>, now: int) {
    t.Some? ==> t.value.Stamp? && t.value.chars != "" && t.value.instant <= now
  }

  /** A test state that the parser accepts and whose times have passed. */
  predicate TestHolds(id: string, t: TestResult, now: int) {
    IsTestId(id) && TestFits(t, true) && TestTyped(t, true) && TimeBy(t.startedAt, now) && TimeBy(t.completedAt, now)
  }

  predicate TestsHold(tests: map<string, TestResult>, now: int) {
    tests != map[] && UniqueOrders(tests) && forall id | id in tests :: TestHolds(id, tests[id], now)
  }

  predicate ErrorsHold(errors: seq<ErrorRecord>) {
    ErrorsFit(errors) && forall i | 0 <= i < |errors| :: ErrorTyped(errors[i])
  }

  predicate HeaderHolds(r: Envelope, now: int) {
    && r.schema == Compact && r.completion == Null && IsSegment(r.runId.chars) && IsSegment(r.node.chars) && r.timestamp >= 0
    && r.timestampLa.Stamp? && r.timestampLa.chars != "" && Seconds(r.timestampLa.instant) == r.timestamp
    && IsDigest(r.globalConfigDigest.chars) && TimeBy(Some(r.generatedAt), now) && TimeBy(r.completedAt, now)
  }

  /** The state between two writes: everything but the derived fields fits, and a completion time still stands only
      if no selected test is open and none completed later. */
  predicate StateHolds(r: Envelope, now: int) {
    && HeaderHolds(r, now) && TestsHold(r.tests, now) && ErrorsHold(r.errors)
    && (r.completedAt.Some? ==> NoneCompletedAfter(r.tests, r.completedAt.value.instant))
  }

  /** With the derived fields filled in, the parser accepts the written state and reads back the same result. */
  lemma WrittenIsAccepted(r: Envelope, now: int)
    requires StateHolds(r, now) && r.overall == ExpectedOverall(r.tests) && (r.completedAt.Some? <==> AllTerminal(r.tests))
    ensures Parse(Written(r)) == Some(r)
  {
    hide StateHolds, EnvelopeTyped, BodyFits, EnvelopeShape, EnvelopeOf, Payload, ExpectedOverall, AllTerminal;
    HeaderTexts(r, now);
    StateTyped(r, now);
    StateFitsBody(r, now);
    EnvelopeReadBack(r);
    assert Get(Payload(r).completion) == Null by {
      CompletionOfPayload(r);
    }
    MissingCompletion(Payload(r));
  }

  lemma CompletionOfPayload(r: Envelope)
    requires r.completion == Null
    ensures Get(Payload(r).completion) == Null
  {
  }

  lemma HeaderTexts(r: Envelope, now: int)
    requires StateHolds(r, now)
    ensures r.runId.chars != "" && r.node.chars != "" && r.globalConfigDigest.chars != "" && r.completion == Null
  {
  }

  lemma StateTyped(r: Envelope, now: int)
    requires StateHolds(r, now) && r.runId.chars != "" && r.node.chars != "" && r.globalConfigDigest.chars != ""
    ensures EnvelopeTyped(r)
  {
    hide TestTyped, ErrorTyped, TestFits, IsTestId, UniqueOrders, ErrorsFit, NoneCompletedAfter, IsSegment, IsDigest;
  }

  lemma StateFitsBody(r: Envelope, now: int)
    requires StateHolds(r, now) && r.overall == ExpectedOverall(r.tests) && (r.completedAt.Some? <==> AllTerminal(r.tests))
    ensures BodyFits(r)
  {
    hide TestTyped, ErrorTyped, TestFits, IsTestId, UniqueOrders, ErrorsFit, NoneCompletedAfter, IsSegment, IsDigest, ExpectedOverall, AllTerminal;
  }

  lemma LaterStillHolds(r: Envelope, now: int, later: int)
    requires StateHolds(r, now) && now <= later
    ensures StateHolds(r, later)
  {
    hide TestFits, TestTyped, IsTestId, UniqueOrders, ErrorsHold, NoneCompletedAfter, IsSegment, IsDigest;
  }

  /** A test changes its execution state only: identity and order stay. */
  lemma TestUpdateHolds(r: Envelope, id: string, t: TestResult, now: int, later: int)
    requires StateHolds(r, now) && now <= later && r.completedAt == None && id in r.tests
    requires TestHolds(id, t, later) && t.order == r.tests[id].order && t.selected == r.tests[id].selected
    ensures StateHolds(r.(tests := r.tests[id := t]), later)
  {
    LaterStillHolds(r, now, later);
    OrdersKept(r.tests, id, t);
    hide TestHolds, ErrorsHold, IsSegment, IsDigest, UniqueOrders;
    assert r.tests[id := t] != map[];
  }

  lemma OrdersKept(tests: map<string, TestResult>, id: string, t: TestResult)
    requires UniqueOrders(tests) && id in tests && t.order == tests[id].order && t.selected == tests[id].selected
    ensures UniqueOrders(tests[id := t])
  {
  }

  predicate OutcomeFits(phase: TestPhase, status: TestStatus, exitCode: Option<int>) {
    match phase
    case Finished => if status == Pass then exitCode == Some(0) else status == Fail && exitCode.Some? && exitCode != Some(0)
    case SetupFailed => status == Fail && exitCode.Some? && exitCode != Some(0)
    case TimedOut | FrameworkError => status == Fail && exitCode != Some(0)
    case Interrupted => status == Incomplete
    case _ => false
  }

  function Done(t: TestResult, phase: TestPhase, status: TestStatus, exitCode: Option<int>, at: Text, durationMs: int, message: Text): TestResult {
    t.(phase := phase, status := status, completedAt := Some(at), durationMs := Some(durationMs), exitCode := exitCode, message := message)
  }

  predicate Active(t: TestResult) {
    (t.phase == Setup || t.phase == Running) && t.selected
  }

  lemma DoneHolds(id: string, t: TestResult, phase: TestPhase, status: TestStatus, exitCode: Option<int>, at: Text, durationMs: int,
                  message: Text, now: int)
    requires TestHolds(id, t, now) && Active(t) && OutcomeFits(phase, status, exitCode)
    requires at.Stamp? && at.chars != "" && at.instant >= now && durationMs >= 0
    ensures TestHolds(id, Done(t, phase, status, exitCode, at, durationMs, message), at.instant)
  {
  }

  lemma StartedHolds(id: string, t: TestResult, at: Text, now: int)
    requires TestHolds(id, t, now) && t.phase == Pending && t.selected
    requires at.Stamp? && at.chars != "" && at.instant >= now
    ensures TestHolds(id, t.(phase := Setup, startedAt := Some(at)), at.instant)
    ensures Active(t.(phase := Setup, startedAt := Some(at)))
  {
  }

  lemma RunningHolds(id: string, t: TestResult, now: int)
    requires TestHolds(id, t, now) && t.phase == Setup && t.selected
    ensures TestHolds(id, t.(phase := Running), now) && Active(t.(phase := Running))
  {
  }

  /** Only the named test may have changed. */
  predicate OnlyChanged(before: Envelope, after: Envelope, id: string) {
    && after.tests.Keys == before.tests.Keys
    && (forall k | k in before.tests && k != id :: after.tests[k] == before.tests[k])
    && id in before.tests && after.tests[id].enabled == before.tests[id].enabled && after.tests[id].selected == before.tests[id].selected
  }

  predicate InitialMap(registry: seq<Registered>, tests: map<string, TestResult>) {
    && (forall id :: id in tests ==> exists j :: 0 <= j < |registry| && registry[j].id == id)
    && (forall j | 0 <= j < |registry| :: registry[j].id in tests && tests[registry[j].id] == InitialTest(registry[j]))
  }

  /** The loop of _initial_result over the registry. */
  method InitialTests(registry: seq<Registered>) returns (tests: map<string, TestResult>, selected: bool)
    requires RegistryFits(registry)
    ensures InitialMap(registry, tests)
    ensures selected <==> exists j :: 0 <= j < |registry| && registry[j].enabled
  {
    hide RegisteredFits, InitialTest, InitialMap;
    NoneInitial();
    tests, selected := map[], false;
    for i := 0 to |registry|
      invariant InitialMap(registry[..i], tests)
      invariant selected <==> exists j :: 0 <= j < i && registry[j].enabled
    {
      AddInitial(registry, tests, i);
      tests := tests[registry[i].id := InitialTest(registry[i])];
      selected := selected || registry[i].enabled;
    }
    assert registry[..|registry|] == registry;
  }

  lemma NoneInitial()
    ensures InitialMap([], map[])
  {
  }

  lemma AddInitial(registry: seq<Registered>, tests: map<string, TestResult>, i: nat)
    requires RegistryFits(registry) && i < |registry| && InitialMap(registry[..i], tests)
    ensures InitialMap(registry[..i + 1], tests[registry[i].id := InitialTest(registry[i])])
  {
    hide RegisteredFits, InitialTest;
    var now, next := registry[..i], registry[..i + 1];
    assert forall j | 0 <= j < i :: now[j] == next[j] == registry[j] && registry[j].id != registry[i].id;
    assert next[i] == registry[i];
  }

  function InitialEnvelope(identity: Identity, tests: map<string, TestResult>, start: int, selected: bool): Envelope {
    Envelope(Compact, identity.runId, identity.node, identity.timestamp, identity.timestampLa, Stamp("utc", start),
             if selected then None else Some(Stamp("utc", start)), Incomplete, identity.imageName, identity.pytorchVersion,
             identity.cudaVersion, identity.gitRef, identity.configDigest, tests, [], Null)
  }

  class Run {
    var result: Envelope
    var now: int
    var file: Option<Json>
    ghost var written: seq<Envelope>

    /** Every state written so far was accepted as it stands. */
    ghost predicate Valid()
      reads this
    {
      StateHolds(result, now) && forall w | w in written :: Parse(Written(w)) == Some(w)
    }

    /** utc_now: the clock does not run backwards. */
    method UtcNow() returns (t: Text)
      modifies this`now
      ensures t.Stamp? && t.chars != "" && t.instant == now && old(now) <= now
    {
      var instant: int := *;
      if instant > now {
        now := instant;
      }
      t := Stamp("utc", now);
    }

    /** _overall. */
    method Overall() returns (overall: TestStatus)
      ensures overall == ExpectedOverall(result.tests)
    {
      var any, fail, pass := false, false, true;
      var todo := result.tests.Keys;
      while todo != {}
        invariant todo <= result.tests.Keys
        invariant any <==> exists id :: id in result.tests.Keys - todo && Participates(result.tests[id])
        invariant fail <==> exists id :: id in result.tests.Keys - todo && Participates(result.tests[id]) && result.tests[id].status == Fail
        invariant pass <==> forall id | id in result.tests.Keys - todo && Participates(result.tests[id]) :: result.tests[id].status == Pass
        decreases |todo|
      {
        var id :| id in todo;
        todo := todo - {id};
        if Participates(result.tests[id]) {
          any, fail, pass := true, fail || result.tests[id].status == Fail, pass && result.tests[id].status == Pass;
        }
      }
      assert result.tests.Keys - todo == result.tests.Keys;
      overall := if !any then Incomplete else if fail then Fail else if pass then Pass else Incomplete;
    }

    /** _write_state: derive the overall fields, submit the state to the parser, write it. */
    method WriteState()
      requires Valid()
      modifies this
      ensures Valid() && old(now) <= now
      ensures result == old(result).(generatedAt := result.generatedAt, overall := result.overall, completedAt := result.completedAt)
      ensures result.overall == ExpectedOverall(result.tests) && (result.completedAt.Some? <==> AllTerminal(result.tests))
      ensures old(result.completedAt).Some? && AllTerminal(result.tests) ==> result.completedAt == old(result.completedAt)
      ensures file == Some(Written(result)) && Parse(Written(result)) == Some(result) && written == old(written) + [result]
    {
      hide AllTerminal, ExpectedOverall, StateHolds, Written, Parse;
      var generated := UtcNow();
      HeaderUpdateHolds(result, old(now), now, generated, result.overall, result.completedAt);
      result := result.(generatedAt := generated);
      var overall := Overall();
      result := result.(overall := overall);
      if AllTerminal(result.tests) {
        if result.completedAt == None {
          ghost var before := now;
          var completed := UtcNow();
          HeaderUpdateHolds(result.(overall := old(result.overall)), before, now, generated, overall, Some(completed));
          result := result.(completedAt := Some(completed));
        } else {
          HeaderUpdateHolds(result.(overall := old(result.overall)), now, now, generated, overall, result.completedAt);
        }
      } else {
        HeaderUpdateHolds(result.(overall := old(result.overall)), now, now, generated, overall, None);
        result := result.(completedAt := None);
      }
      WrittenIsAccepted(result, now);
      var parsed := ParseValidationResultV2(Written(result));
      assert parsed == Some(result);
      file := Some(Written(result));
      written := written + [result];
    }

    /** _finish_test. */
    method FinishTest(id: string, phase: TestPhase, status: TestStatus, exitCode: Option<int>, message: Text)
      requires Valid() && id in result.tests && Active(result.tests[id]) && result.completedAt == None
      requires OutcomeFits(phase, status, exitCode)
      modifies this
      ensures Valid() && OnlyChanged(old(result), result, id) && result.errors == old(result.errors)
      ensures result.tests[id].phase == phase && result.tests[id].status == status && result.tests[id].exitCode == exitCode
      ensures result.completedAt.Some? <==> AllTerminal(result.tests)
      ensures old(written) <= written && file == Some(Written(result))
    {
      hide StateHolds, Written, Parse, AllTerminal, ExpectedOverall, TestHolds;
      var at := UtcNow();
      var duration: int := *;
      if duration < 0 {
        duration := 0;
      }
      StateTest(result, id, old(now));
      DoneHolds(id, result.tests[id], phase, status, exitCode, at, duration, message, old(now));
      TestUpdateHolds(result, id, Done(result.tests[id], phase, status, exitCode, at, duration, message), old(now), now);
      result := result.(tests := result.tests[id := Done(result.tests[id], phase, status, exitCode, at, duration, message)]);
      WriteState();
    }

    /** stream_process: a process exits, runs out of time, is interrupted, or its capture raises. */
    method StreamProcess() returns (o: ProcessOutcome)
    {
      o := *;
    }

    /** The except clause of _run_one_test: record the error, fail the test, go on with the run. */
    method FrameworkFailure(id: string, message: string)
      requires Valid() && id in result.tests && Active(result.tests[id]) && result.completedAt == None
      modifies this
      ensures Valid() && OnlyChanged(old(result), result, id) && Terminal(result.tests[id].phase)
      ensures |result.errors| == |old(result.errors)| + 1
      ensures result.completedAt.Some? <==> AllTerminal(result.tests)
      ensures old(written) <= written && file == Some(Written(result))
    {
      hide StateHolds, Written, Parse, AllTerminal, ExpectedOverall, TestHolds;
      var at := UtcNow();
      var text := Plain(if message == "" then "Exception" else message);
      StateTest(result, id, old(now));
      var e := ErrorRecord(Plain("test_framework_error"), text, Some(Plain(id)), at, result.tests[id].log);
      ErrorAddsUp(result, e, old(now), now);
      result := result.(errors := result.errors + [e]);
      FinishTest(id, FrameworkError, Fail, None, text);
    }

    /** The test's setup begins. */
    method Start(id: string)
      requires Valid() && id in result.tests && result.completedAt == None
      requires result.tests[id].phase == Pending && result.tests[id].selected
      modifies this
      ensures Valid() && OnlyChanged(old(result), result, id) && result.errors == old(result.errors)
      ensures result.tests[id].phase == Setup && result.tests[id].selected && result.completedAt == None
      ensures old(written) <= written && file == Some(Written(result))
    {
      hide StateHolds, Written, Parse, AllTerminal, ExpectedOverall, TestHolds;
      var at := UtcNow();
      StateTest(result, id, old(now));
      StartedHolds(id, result.tests[id], at, old(now));
      TestUpdateHolds(result, id, result.tests[id].(phase := Setup, startedAt := Some(at)), old(now), now);
      result := result.(tests := result.tests[id := result.tests[id].(phase := Setup, startedAt := Some(at))]);
      OpenTest(result.tests, id);
      WriteState();
    }

    /** The test's workload begins. */
    method EnterRunning(id: string)
      requires Valid() && id in result.tests && result.completedAt == None
      requires result.tests[id].phase == Setup && result.tests[id].selected
      modifies this
      ensures Valid() && OnlyChanged(old(result), result, id) && result.errors == old(result.errors)
      ensures result.tests[id].phase == Running && result.tests[id].selected && result.completedAt == None
      ensures old(written) <= written && file == Some(Written(result))
    {
      hide StateHolds, Written, Parse, AllTerminal, ExpectedOverall, TestHolds;
      StateTest(result, id, now);
      RunningHolds(id, result.tests[id], now);
      TestUpdateHolds(result, id, result.tests[id].(phase := Running), now, now);
      result := result.(tests := result.tests[id := result.tests[id].(phase := Running)]);
      OpenTest(result.tests, id);
      WriteState();
    }

    /** _run_one_test. */
    method RunOneTest(id: string) returns (interrupted: bool)
      requires Valid() && id in result.tests && result.completedAt == None
      requires result.tests[id].phase == Pending && result.tests[id].selected
      modifies this
      ensures Valid() && OnlyChanged(old(result), result, id) && Terminal(result.tests[id].phase)
      ensures result.completedAt.Some? <==> AllTerminal(result.tests)
      ensures old(written) <= written && file == Some(Written(result))
    {
      hide StateHolds, Written, Parse, AllTerminal;
      Start(id);
      var setup := StreamProcess();
      match setup {
        case Interrupt =>
          FinishTest(id, Interrupted, Incomplete, None, Plain("interrupted"));
          return true;
        case Raised(message) =>
          FrameworkFailure(id, message);
          return false;
        case Expired =>
          FinishTest(id, TimedOut, Fail, Some(-9), Plain("timeout"));
          return false;
        case Exited(code) =>
          if code != 0 {
            FinishTest(id, SetupFailed, Fail, Some(code), Plain("setup failed"));
            return false;
          }
      }
      EnterRunning(id);
      var workload := StreamProcess();
      match workload {
        case Interrupt =>
          FinishTest(id, Interrupted, Incomplete, None, Plain("interrupted"));
          return true;
        case Raised(message) =>
          FrameworkFailure(id, message);
        case Expired =>
          FinishTest(id, TimedOut, Fail, Some(-9), Plain("timeout"));
        case Exited(code) =>
          FinishTest(id, Finished, if code == 0 then Pass else Fail, Some(code), if code == 0 then EMPTY else Plain("workload failed"));
      }
      interrupted := false;
    }

    /** _initial_result. */
    constructor (identity: Identity, registry: seq<Registered>, start: int)
      requires IdentityFits(identity) && RegistryFits(registry)
      ensures Valid() && fresh(this) && Reaches(result.tests, registry, 0) && written == []
    {
      hide StateHolds, Written, Parse, RegisteredFits, Reaches, TestsHold, InitialMap;
      var tests, selected := InitialTests(registry);
      InitialHolds(registry, tests, start);
      InitialReaches(registry, tests);
      InitialState(identity, tests, start, selected);
      result := InitialEnvelope(identity, tests, start, selected);
      now, written, file := start, [], None;
    }

    /** _execute_registry: the tests in order; an interrupt ends the run. */
    method ExecuteRegistry(registry: seq<Registered>) returns (interrupted: bool)
      requires Valid() && RegistryFits(registry) && Reaches(result.tests, registry, 0)
      requires result.completedAt.Some? <==> AllTerminal(result.tests)
      modifies this
      ensures Valid() && old(written) <= written && (interrupted || Reaches(result.tests, registry, |registry|))
      ensures result.completedAt.Some? <==> AllTerminal(result.tests)
    {
      hide StateHolds, Written, Parse, AllTerminal, RegisteredFits;
      interrupted := false;
      for i := 0 to |registry|
        invariant Valid() && Reaches(result.tests, registry, i) && old(written) <= written
        invariant result.completedAt.Some? <==> AllTerminal(result.tests)
      {
        if registry[i].enabled {
          OpenTest(result.tests, registry[i].id);
          ghost var before := result;
          interrupted := RunOneTest(registry[i].id);
          if interrupted {
            return;
          }
          ReachesNext(before, result, registry, i);
        }
      }
    }
  }

  /** run_validation_tests: the final state is accepted whatever the processes did, and complete unless interrupted. */
  method RunValidationTests(identity: Identity, registry: seq<Registered>, start: int) returns (run: Run, interrupted: bool)
    requires IdentityFits(identity) && RegistryFits(registry)
    ensures run.Valid() && run.file == Some(Written(run.result)) && Parse(Written(run.result)) == Some(run.result)
    ensures |run.written| >= 2 && run.written[|run.written| - 1] == run.result
    ensures !interrupted ==> run.result.completedAt.Some? && Reaches(run.result.tests, registry, |registry|)
  {
    hide StateHolds, Written, Parse, AllTerminal, ExpectedOverall, RegisteredFits;
    run := new Run(identity, registry, start);
    run.WriteState();
    interrupted := run.ExecuteRegistry(registry);
    if interrupted {
      run.WriteState();
      return;
    }
    AllReached(run.result, registry);
    assert run.result.completedAt.Some?;
    run.WriteState();
    run.WriteState();
  }

  /** The first i tests of the registry are over, the others untouched. */
  predicate Reaches(tests: map<string, TestResult>, registry: seq<Registered>, i: nat)
    requires i <= |registry|
  {
    && (forall id :: id in tests ==> exists j :: 0 <= j < |registry| && registry[j].id == id)
    && (forall j | 0 <= j < |registry| ::
          && registry[j].id in tests && tests[registry[j].id].enabled == tests[registry[j].id].selected == registry[j].enabled
          && (registry[j].enabled ==> if j < i then Terminal(tests[registry[j].id].phase) else tests[registry[j].id].phase == Pending))
  }

  lemma ReachesNext(before: Envelope, after: Envelope, registry: seq<Registered>, i: nat)
    requires RegistryFits(registry) && i < |registry| && Reaches(before.tests, registry, i)
    requires OnlyChanged(before, after, registry[i].id) && Terminal(after.tests[registry[i].id].phase)
    ensures Reaches(after.tests, registry, i + 1)
  {
    hide RegisteredFits, Terminal;
    forall j | 0 <= j < |registry|
      ensures registry[j].id in after.tests
      ensures after.tests[registry[j].id].enabled == after.tests[registry[j].id].selected == registry[j].enabled
      ensures registry[j].enabled ==>
        if j < i + 1 then Terminal(after.tests[registry[j].id].phase) else after.tests[registry[j].id].phase == Pending
    {
      assert j != i ==> registry[j].id != registry[i].id;
    }
  }

  lemma AllReached(r: Envelope, registry: seq<Registered>)
    requires Reaches(r.tests, registry, |registry|)
    ensures AllTerminal(r.tests)
  {
  }

  lemma InitialHolds(registry: seq<Registered>, tests: map<string, TestResult>, now: int)
    requires RegistryFits(registry)
    requires InitialMap(registry, tests)
    ensures TestsHold(tests, now)
  {
    assert registry[0].id in tests;
    forall id | id in tests ensures TestHolds(id, tests[id], now) {
      var j :| 0 <= j < |registry| && registry[j].id == id;
      InitialTestHolds(registry[j], now);
    }
    hide TestHolds, InitialTest, RegisteredFits;
    forall a, b | a in tests && b in tests && a != b && tests[a].selected && tests[b].selected ensures tests[a].order != tests[b].order {
      var i :| 0 <= i < |registry| && registry[i].id == a;
      var j :| 0 <= j < |registry| && registry[j].id == b;
      InitialOrder(registry[i]);
      InitialOrder(registry[j]);
      assert i < j || j < i;
    }
  }

  lemma InitialState(identity: Identity, tests: map<string, TestResult>, start: int, selected: bool)
    requires IdentityFits(identity) && TestsHold(tests, start)
    ensures StateHolds(InitialEnvelope(identity, tests, start, selected), start)
  {
  }

  lemma InitialReaches(registry: seq<Registered>, tests: map<string, TestResult>)
    requires InitialMap(registry, tests)
    ensures Reaches(tests, registry, 0)
  {
  }

  lemma InitialOrder(t: Registered)
    ensures InitialTest(t).order == t.order && InitialTest(t).selected == t.enabled
  {
  }

  lemma InitialTestHolds(t: Registered, now: int)
    requires RegisteredFits(t)
    ensures TestHolds(t.id, InitialTest(t), now)
  {
  }

  /** The derived fields may be set freely, a completion time only when it is current. */
  lemma HeaderUpdateHolds(r: Envelope, now: int, later: int, generated: Text, overall: TestStatus, completed: Option<Text>)
    requires StateHolds(r, now) && now <= later && TimeBy(Some(generated), later)
    requires completed == None || completed == r.completedAt || (TimeBy(completed, later) && completed.value.instant == later)
    ensures StateHolds(r.(generatedAt := generated, overall := overall, completedAt := completed), later)
  {
    LaterStillHolds(r, now, later);
    hide TestFits, TestTyped, IsTestId, UniqueOrders, ErrorsHold, IsSegment, IsDigest;
    if completed.Some? && completed.value.Stamp? && completed.value.instant == later {
      forall id | id in r.tests && r.tests[id].completedAt.Some? ensures r.tests[id].completedAt.value.instant <= later {
        assert TestHolds(id, r.tests[id], later);
      }
    }
  }

  lemma StateTest(r: Envelope, id: string, now: int)
    requires StateHolds(r, now) && id in r.tests
    ensures TestHolds(id, r.tests[id], now) && IsTestId(id) && (r.tests[id].selected ==> r.tests[id].enabled)
  {
  }

  lemma OpenTest(tests: map<string, TestResult>, id: string)
    requires id in tests && tests[id].selected && !Terminal(tests[id].phase)
    ensures tests[id].enabled ==> !AllTerminal(tests)
  {
  }

  lemma ErrorAddsUp(r: Envelope, e: ErrorRecord, now: int, later: int)
    requires StateHolds(r, now) && now <= later && ErrorTyped(e) && e.timestamp.Stamp?
    requires e.testId.Some? ==> IsTestId(e.testId.value.chars)
    ensures StateHolds(r.(errors := r.errors + [e]), later)
  {
    LaterStillHolds(r, now, later);
    hide TestsHold, HeaderHolds, NoneCompletedAfter, IsTestId;
  }
}
