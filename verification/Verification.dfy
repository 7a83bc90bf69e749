/** verify_request and its source states (cval/storage/verification.py): when a report releases an intent, and why an
    intent it finishes is truly over. */
module Verification {
  import opened Journal
  import opened RequestedFields
  import opened Wrappers

  lemma NothingExtra<Row(!new)>(a: multiset<Row>, b: multiset<Row>)
    ensures |a - b| == 0 <==> a <= b
    ensures |a - b| > 0 ==> exists r :: r in a && a[r] > b[r]
  {
    if |a - b| > 0 {
      var r :| r in a - b;
      assert (a - b)[r] > 0;
    } else {
      forall r ensures a[r] <= b[r] {
        assert (a - b)[r] == 0;
      }
    }
  }

  /** _same_rows: missing rows alone are incomplete, any row too many conflicts. */
  function SameRows<Row(!new)>(wanted: multiset<Row>, actual: multiset<Row>): (s: SourceState)
    ensures s == SourceComplete <==> actual == wanted
    ensures s == SourceIncomplete <==> actual < wanted
    ensures s == SourceConflicting <==> exists r :: r in actual && actual[r] > wanted[r]
  {
    NothingExtra(actual, wanted);
    NothingExtra(wanted, actual);
    if wanted == actual then SourceComplete
    else if |actual| == 0 || (|actual - wanted| == 0 && |wanted - actual| > 0) then SourceIncomplete
    else SourceConflicting
  }

  predicate AnySource(sources: map<string, SourceState>, s: SourceState) {
    exists n :: n in sources && sources[n] == s
  }

  /** _combined_state: the first of the four failures that any source shows. */
  function CombinedState(sources: map<string, SourceState>): SourceState {
    if AnySource(sources, SourceForbidden) then SourceForbidden
    else if AnySource(sources, SourceUnavailable) then SourceUnavailable
    else if AnySource(sources, SourceConflicting) then SourceConflicting
    else if AnySource(sources, SourceIncomplete) then SourceIncomplete
    else SourceComplete
  }

  function Severity(s: SourceState): nat {
    match s
    case SourceForbidden => 4
    case SourceUnavailable => 3
    case SourceConflicting => 2
    case SourceIncomplete => 1
    case SourceComplete => 0
    case SourceNotRequired => 0
  }

  /** The combined state is the worst source, and complete only if every required source is. */
  lemma CombinedIsWorst(sources: map<string, SourceState>)
    ensures forall n | n in sources :: Severity(sources[n]) <= Severity(CombinedState(sources))
    ensures CombinedState(sources) == SourceComplete || AnySource(sources, CombinedState(sources))
    ensures CombinedState(sources) == SourceComplete <==> forall n | n in sources :: sources[n] in {SourceComplete, SourceNotRequired}
    ensures AllReadable(sources) <==> CombinedState(sources) in {SourceComplete, SourceIncomplete, SourceConflicting}
  {
    forall n | n in sources ensures Severity(sources[n]) <= Severity(CombinedState(sources)) {
      assert AnySource(sources, sources[n]);
    }
    if forall n | n in sources :: sources[n] in {SourceComplete, SourceNotRequired} {
      assert forall n | n in sources :: Severity(sources[n]) == 0;
    }
  }

  /** Combining a source's parts first loses nothing: the DL components count as if they were sources themselves. */
  lemma CombinedNested(sources: map<string, SourceState>, parts: map<string, SourceState>, name: string)
    requires name !in sources && sources.Keys !! parts.Keys
    ensures CombinedState(sources[name := CombinedState(parts)]) == CombinedState(sources + parts)
  {
    var nested := sources[name := CombinedState(parts)];
    CombinedIsWorst(parts);
    CombinedIsWorst(nested);
    CombinedIsWorst(sources + parts);
    assert nested[name] == CombinedState(parts);
    forall n | n in sources + parts ensures Severity((sources + parts)[n]) <= Severity(CombinedState(nested)) {
      if n in sources {
        assert nested[n] == sources[n];
      }
    }
    forall n | n in nested ensures Severity(nested[n]) <= Severity(CombinedState(sources + parts)) {
      if n != name {
        assert (sources + parts)[n] == nested[n];
      } else if CombinedState(parts) != SourceComplete {
        var k :| k in parts && parts[k] == CombinedState(parts);
        assert (sources + parts)[k] == parts[k];
      }
    }
  }

  /** What the exact-evidence reader answers; without sources it failed as a whole. */
  datatype Evidence = Evidence(state: SourceState, sources: map<string, SourceState>, testsPassed: bool)

  datatype Verdict = Verdict(report: Report, complete: bool, accepted: bool)

  function Refused(binding: Binding, uid: Option<nat>, phase: string, state: SourceState, sources: map<string, SourceState>): Verdict {
    Verdict(Report(true, false, false, binding, uid, None, phase, state, sources), false, false)
  }

  /** The decision over an identified terminal Job and the sources read for it. */
  function Decided(binding: Binding, uid: nat, phase: string, sources: map<string, SourceState>, testsPassed: bool, podSuccess: bool): (v: Verdict)
    ensures v.report.identityVerified && (v.report.release <==> AllReadable(sources)) && (v.complete ==> v.report.release)
    ensures v.complete <==> forall n | n in sources :: sources[n] in {SourceComplete, SourceNotRequired}
    ensures v.accepted <==> v.complete && testsPassed && podSuccess && phase in {"Completed", "Succeeded"}
  {
    CombinedIsWorst(sources);
    var state := CombinedState(sources);
    var complete := state == SourceComplete;
    var release := state in {SourceComplete, SourceIncomplete, SourceConflicting} && AllReadable(sources);
    Verdict(Report(true, release, true, binding, Some(uid), Some(uid), phase, state, sources), complete,
            complete && testsPassed && podSuccess && phase in {"Completed", "Succeeded"})
  }

  datatype ContainerStatus = ContainerStatus(name: string, restarts: Option<int>, exitCode: Option<int>)

  datatype EnvEntry = EnvEntry(name: string, entry: Document)

  datatype Container = Container(name: string, image: Document, command: Document, args: Document, env: seq<EnvEntry>)

  /** What one pod shows besides its phase. */
  datatype PodView = PodView(owners: set<(string, nat)>, node: string, containers: seq<Container>, statuses: seq<ContainerStatus>)

  datatype TestDefinition = TestDefinition(configDigest: string, enabled: bool, configPath: string, settings: Document, gpuCount: int,
                                           summaryFilename: string, order: int)

  /** What a run is asked to do, as the verifier expects it and as the submitted snapshot says. */
  datatype Workload = Workload(gitRef: string, configDigest: string, timestamp: nat, tests: map<string, TestDefinition>, root: string,
                               databases: map<string, string>, image: string)

  predicate SoleEnv(env: seq<EnvEntry>, name: string, k: int) {
    && 0 <= k < |env| && env[k].name == name
    && forall j | 0 <= j < |env| && j != k :: env[j].name != name
  }

  predicate SoleContainer(containers: seq<Container>, name: string, k: int) {
    && 0 <= k < |containers| && containers[k].name == name
    && forall j | 0 <= j < |containers| && j != k :: containers[j].name != name
  }

  /** The same image and command line, and every requested variable once, carrying what was asked. */
  predicate RunsAs(wanted: Container, found: Container) {
    && found.image == wanted.image && found.command == wanted.command && found.args == wanted.args
    && forall e | e in wanted.env :: exists k :: 0 <= k < |found.env| && SoleEnv(found.env, e.name, k) && Matches(e.entry, found.env[k].entry)
  }

  predicate RunsAsSubmitted(spec: seq<Container>, found: seq<Container>) {
    forall c | c in spec :: exists k :: 0 <= k < |found| && SoleContainer(found, c.name, k) && RunsAs(c, found[k])
  }

  /** The pod is the Job's own, on its node, running what was submitted. */
  predicate PodFits(i: Intent, uid: nat, spec: seq<Container>, pod: PodView) {
    (i.request.job, uid) in pod.owners && pod.node == i.request.node && RunsAsSubmitted(spec, pod.containers)
  }

  /** The pod succeeded as a whole: a status for exactly the submitted containers, none restarted, each exited with zero. */
  predicate PodSucceeded(pods: seq<Pod>, statuses: seq<ContainerStatus>, spec: seq<Container>) {
    && |pods| == 1 && pods[0].phase == "Succeeded"
    && (set s | s in statuses :: s.name) == (set c | c in spec :: c.name)
    && forall s | s in statuses :: s.restarts == Some(0) && s.exitCode == Some(0)
  }

  /** What a report establishes once it claims to have verified the Job's identity, seen from cluster d. */
  ghost predicate Bound(i: Intent, r: Report, d: Cluster) {
    r.identityVerified ==>
      && r.schemaMatches && r.binding == i.request.ToBinding()
      && r.jobUid.Some? && r.jobSource == r.jobUid && KnownUids(i.events) <= {r.jobUid.value}
      && "job" in r.sources && r.sources["job"] == SourceComplete && r.state == CombinedState(r.sources)
      && TerminalPhase(r.jobPhase)
      && r.jobUid.value in d.records && d.records[r.jobUid.value].name == i.request.job && TerminalPhase(d.records[r.jobUid.value].phase)
  }

  method Evolve(c: Cluster) returns (d: Cluster)
    requires Coherent(c)
    ensures Evolves(c, d)
  {
    var next: Cluster := *;
    d := if Evolves(c, next) then next else c;
  }

  /** What a verdict on the intent must satisfy, whatever happened on the way; a complete one is accepted exactly if
      tests, pod and Job all succeeded. */
  ghost predicate Sound(i: Intent, evidence: Evidence, podSuccess: bool, v: Verdict, d: Cluster) {
    && Bound(i, v.report, d)
    && (v.report.release <==> v.report.identityVerified && AllReadable(v.report.sources))
    && (v.complete ==> v.report.release)
    && (v.accepted <==> v.complete && evidence.testsPassed && podSuccess && v.report.jobPhase in {"Completed", "Succeeded"})
    && (v.complete ==>
          forall n | n in evidence.sources && n != "job" :: evidence.sources[n] in {SourceComplete, SourceNotRequired})
  }

  /** verify_request, for the workload that is expected, the one the Job's snapshot decodes to, if it does, the Job's
      containers and its pod. Every command may fail; the cluster goes on while the evidence is read. The pods are those
      of the Job at some moment seen in between. */
  method VerifyRequest(i: Intent, request: Binding, expected: Workload, submitted: Option<Workload>, spec: seq<Container>, pod: PodView,
                       c: Cluster, evidence: Evidence) returns (v: Verdict, ghost seen: Cluster, d: Cluster)
    requires Coherent(c)
    ensures Evolves(c, seen) && Evolves(seen, d)
    ensures v.report.identityVerified ==>
              submitted == Some(expected) && v.report.jobUid.Some? && PodFits(i, v.report.jobUid.value, spec, pod)
    ensures v.complete ==> v.report.jobUid.Some? && v.report.jobUid.value in seen.records && |seen.records[v.report.jobUid.value].pods| == 1
    ensures Sound(i, evidence, v.complete && PodSucceeded(seen.records[v.report.jobUid.value].pods, pod.statuses, spec), v, d)
  {
    hide PodFits, PodSucceeded, KnownUids, CombinedState, AnySource, TerminalPhase;
    var failed: bool, failure: SourceState := *, *;
    seen := c;
    var binding := request.(job := i.request.job, manifest := i.request.manifest);
    d := c;
    if binding != i.request.ToBinding() {
      return Refused(binding, None, "Unknown", SourceConflicting, map[]), seen, d;
    }
    if failed || i.request.job !in c.live || !SameIdentity(i, c.live[i.request.job], c.records[c.live[i.request.job]]) {
      return Refused(binding, None, "Unknown", failure, map[]), seen, d;
    }
    var uid := c.live[i.request.job];
    var phase := c.records[uid].phase;
    if !TerminalPhase(phase) {
      return Refused(binding, Some(uid), phase, SourceUnavailable, map[]), seen, d;
    }
    if submitted != Some(expected) {
      return Refused(binding, Some(uid), phase, SourceConflicting, map[]), seen, d;
    }
    d := Evolve(c);
    seen := d;
    var unread: bool := *;
    var pods := d.records[uid].pods;
    if unread || |pods| != 1 || !PodFits(i, uid, spec, pod) || !PodDone(pods[0]) {
      return Refused(binding, Some(uid), phase, failure, map[]), seen, d;
    }
    var after: Cluster;
    v, after := ReadEvidence(i, uid, phase, PodSucceeded(pods, pod.statuses, spec), d, evidence);
    d := after;
  }

  /** From the evidence to the decision: the Job must still be the same one, in the same phase. */
  method ReadEvidence(i: Intent, uid: nat, phase: string, podSuccess: bool, c: Cluster, evidence: Evidence) returns (v: Verdict, d: Cluster)
    requires Coherent(c) && TerminalPhase(phase) && uid in c.records
    ensures Evolves(c, d) && Sound(i, evidence, podSuccess, v, d) && (v.report.identityVerified ==> v.report.jobUid == Some(uid))
  {
    hide KnownUids, CombinedState, AnySource, TerminalPhase;
    var binding := i.request.ToBinding();
    var sources := if evidence.sources == map[] then map["evidence" := evidence.state] else evidence.sources;
    d := Evolve(c);
    var unread: bool, failure: SourceState := *, *;
    if unread || i.request.job !in d.live || !SameIdentity(i, d.live[i.request.job], d.records[d.live[i.request.job]])
       || d.live[i.request.job] != uid || d.records[uid].phase != phase {
      return Refused(binding, Some(uid), phase, failure, sources), d;
    }
    sources := sources["job" := SourceComplete];
    assert forall n | n in evidence.sources && n != "job" :: n in sources && sources[n] == evidence.sources[n];
    v := Decided(binding, uid, phase, sources, evidence.testsPassed, podSuccess);
  }

  /** The event that retains a report: on top of the last observation, if there is one, whose state it keeps. Two
      different uids are refused. */
  function Finishing(observation: Option<Event>, r: Report): Option<Event> {
    var base := if observation.Some? then observation.value else Event(VerificationFinished, None, r.jobPhase, None, None, None);
    if !r.identityVerified then Some(base.(report := Some(r)))
    else if base.uid.Some? && base.uid != r.jobUid then None
    else Some(base.(uid := r.jobUid, report := Some(r)))
  }

  lemma UidsAfter(i: Intent, e: Event)
    ensures EventUids(i.events + [e]) == EventUids(i.events) + (if e.uid.Some? then {e.uid.value} else {})
  {
    forall u ensures u in EventUids(i.events + [e]) <==> u in EventUids(i.events) || e.uid == Some(u) {
      if u in EventUids(i.events) {
        var f :| f in i.events && f.uid == Some(u);
        assert f in i.events + [e];
      }
      assert e in i.events + [e];
    }
  }

  /** Retained with the uid it identified and without an observation, a report finishes its intent exactly when it
      releases; on top of an observation the observation alone decides, and what it finished stays finished. Either way an
      intent so finished has a terminal Job of its name under the one uid its events carry. */
  lemma ReleasingReportFinishesTruly(i: Intent, observation: Option<Event>, r: Report, c: Cluster, d: Cluster, attempts: seq<string>)
    requires Bound(i, r, d) && (r.release <==> r.identityVerified && AllReadable(r.sources))
    requires observation.Some? ==> ObservationTruth(i.request, observation.value, c) && Evolves(c, d)
    requires Finishing(observation, r).Some?
    ensures var e := Finishing(observation, r).value; var j := Intent(i.request, i.events + [e]);
      && (Finished(j) <==> if observation.None? then r.release else TrackingReleases(j, e))
      && FinishedTruth(j, d, attempts)
      && (observation.Some? && i.events != [] && Last(i) == observation.value && Finished(i) ==> Finished(j))
  {
    var e := Finishing(observation, r).value;
    var j := Intent(i.request, i.events + [e]);
    assert Last(j) == e;
    UidsAfter(i, e);
    CombinedIsWorst(r.sources);
    if observation.Some? {
      TrueObservationFinishesTruly(i, e, d, attempts);
    } else if r.release {
      assert EventUids(i.events) <= {r.jobUid.value};
      assert EventUids(j.events) == {r.jobUid.value};
    }
  }

  /** On its own, before anything carries the uid, a releasing report is not enough: it releases exactly when some
      retained event already names the Job. */
  lemma ReportAloneReleasesIff(i: Intent, r: Report, d: Cluster)
    requires Bound(i, r, d) && (r.release <==> r.identityVerified && AllReadable(r.sources))
    ensures VerificationReleases(i, r) <==> r.release && EventUids(i.events) != {}
  {
    CombinedIsWorst(r.sources);
    if r.release && EventUids(i.events) != {} {
      var u :| u in EventUids(i.events);
      assert EventUids(i.events) <= {r.jobUid.value};
      assert EventUids(i.events) == {r.jobUid.value};
    }
  }
}
