/** The durable submission journal and the cluster it talks about (cval/jobs/manager.py). */
module Journal {
  import opened Sets
  import opened Wrappers

  /** _TERMINAL_PHASES: the phases a Job never leaves. */
  predicate TerminalPhase(phase: string) {
    phase in {"Completed", "Succeeded", "Failed", "Aborted", "Terminated"}
  }

  predicate PodDone(p: Pod) {
    p.phase in {"Succeeded", "Failed"}
  }

  datatype Pod = Pod(uid: nat, phase: string)

  /** The rendered manifest: the node it is pinned to and everything else it requests. */
  datatype Manifest = Manifest(node: string, workload: string)

  /** What identifies the run of a request; the manifest digest stands for the manifest. */
  datatype Binding = Binding(job: string, node: string, timestamp: nat, gitRef: string, configDigest: string, manifest: Manifest)

  /** The fields of an intent that bind one request. */
  datatype Request = Request(job: string, node: string, timestamp: nat, gitRef: string, configDigest: string,
                             manifest: Manifest, confirmation: string, allowCordoned: bool, approval: string)
  {
    function RunId(): (string, nat) {
      (node, timestamp)
    }

    function ToBinding(): Binding {
      Binding(job, node, timestamp, gitRef, configDigest, manifest)
    }
  }

  datatype EventState = Prepared | Submitting | NotCreated | Submitted | Observed | Uncertain | Conflict | VerificationFinished | TrackingFinished

  datatype Reply = Reply(returnCode: int, uid: Option<nat>)

  /** The part of a tracking observation that a release depends on. */
  datatype Tracking = Tracking(queried: bool, complete: bool, binding: Binding, pods: seq<Pod>)

  datatype SourceState = SourceComplete | SourceIncomplete | SourceConflicting | SourceForbidden | SourceUnavailable | SourceNotRequired

  /** A verification report, as far as a release depends on it: what it was asked about, the Job it identified, the
      state of every source and the state they combine to. */
  datatype Report = Report(schemaMatches: bool, release: bool, identityVerified: bool, binding: Binding, jobUid: Option<nat>,
                           jobSource: Option<nat>, jobPhase: string, state: SourceState, sources: map<string, SourceState>)

  datatype Event = Event(state: EventState, uid: Option<nat>, phase: string, reply: Option<Reply>, tracking: Option<Tracking>, report: Option<Report>)

  datatype Intent = Intent(request: Request, events: seq<Event>)

  function Plain(state: EventState): Event {
    Event(state, None, "Unknown", None, None, None)
  }

  function EventUids(events: seq<Event>): set<nat> {
    set e | e in events && e.uid.Some? :: e.uid.value
  }

  /** Uids carried by events or by successful create responses. */
  function KnownUids(events: seq<Event>): set<nat> {
    EventUids(events) + set e | e in events && e.reply.Some? && e.reply.value.returnCode == 0 && e.reply.value.uid.Some? :: e.reply.value.uid.value
  }

  function Last(i: Intent): Event
    requires i.events != []
  {
    i.events[|i.events| - 1]
  }

  predicate TrackingReleases(i: Intent, e: Event) {
    && e.state == TrackingFinished && e.tracking.Some? && e.tracking.value.queried
    && e.tracking.value.complete && TerminalPhase(e.phase)
    && e.uid.Some? && EventUids(i.events) == {e.uid.value}
    && e.tracking.value.binding == i.request.ToBinding()
    && forall p | p in e.tracking.value.pods :: PodDone(p)
  }

  predicate AllReadable(sources: map<string, SourceState>) {
    forall n | n in sources :: sources[n] != SourceForbidden && sources[n] != SourceUnavailable
  }

  predicate VerificationReleases(i: Intent, r: Report) {
    && r.schemaMatches && r.release && r.identityVerified
    && r.binding == i.request.ToBinding()
    && r.jobUid.Some? && EventUids(i.events) == {r.jobUid.value}
    && r.jobSource == r.jobUid && "job" in r.sources && r.sources["job"] == SourceComplete
    && TerminalPhase(r.jobPhase) && r.state in {SourceComplete, SourceIncomplete, SourceConflicting}
    && AllReadable(r.sources)
  }

  /** intent_finished: the last event alone decides. */
  predicate Finished(i: Intent)
    requires i.events != []
  {
    var last := Last(i);
    || last.state == NotCreated
    || (last.state == VerificationFinished && last.report.Some? && VerificationReleases(i, last.report.value))
    || (last.state == TrackingFinished && TrackingReleases(i, last))
  }

  predicate EverSubmitting(i: Intent) {
    exists k :: 0 <= k < |i.events| && i.events[k].state == Submitting
  }

  type Intents = map<string, Intent>

  /** Journals only grow: no intent disappears, its request never changes, its events extend, and
      a finished intent is left alone. */
  ghost predicate Grows(a: Intents, b: Intents) {
    forall n | n in a :: n in b && Extends(a[n], b[n])
  }

  ghost predicate Extends(a: Intent, b: Intent) {
    && b.request == a.request && a.events <= b.events
    && (a.events != [] && Finished(a) ==> b == a)
  }

  lemma GrowsTransitive(a: Intents, b: Intents, c: Intents)
    requires Grows(a, b) && Grows(b, c)
    ensures Grows(a, c)
  {
  }

  /** One Job object, identified by its uid for as long as history lasts. */
  datatype Record = Record(name: string, manifest: Manifest, validation: bool, targets: set<string>, phase: string, pods: seq<Pod>, deleting: bool)

  datatype Cluster = Cluster(live: map<string, nat>, records: map<nat, Record>)

  predicate Coherent(c: Cluster) {
    forall n | n in c.live :: c.live[n] in c.records && c.records[c.live[n]].name == n
  }

  /** Anything others may do to the cluster: Jobs come, change phase, go and come back under the
      same name with a new uid, but a terminal phase is final for its uid. */
  predicate Evolves(c: Cluster, d: Cluster) {
    && Coherent(d)
    && forall u | u in c.records ::
         && u in d.records
         && d.records[u].name == c.records[u].name && d.records[u].manifest == c.records[u].manifest && d.records[u].targets == c.records[u].targets
         && (TerminalPhase(c.records[u].phase) ==> TerminalPhase(d.records[u].phase))
  }

  lemma EvolvesTransitive(a: Cluster, b: Cluster, c: Cluster)
    requires Evolves(a, b) && Evolves(b, c)
    ensures Evolves(a, c)
  {
  }

  /** A validation Job that still holds its node. */
  predicate Occupies(r: Record) {
    r.validation && !TerminalPhase(r.phase)
  }

  /** A Job that holds a node under this name holds the given one. */
  predicate Placed(c: Cluster, name: string, node: string) {
    name in c.live && c.live[name] in c.records && Occupies(c.records[c.live[name]]) ==> c.records[c.live[name]].targets == {node}
  }

  /** No validation Job that holds another node runs under the name of an unfinished intent. */
  predicate NoImpostor(j: Intents, c: Cluster) {
    forall n | n in Unfinished(j) :: Placed(c, n, j[n].request.node)
  }

  /** What a finished intent promises: its Job was never created, or the one uid its events carry
      names a Job of that name that is terminal. */
  ghost predicate FinishedTruth(i: Intent, c: Cluster, attempts: seq<string>)
    requires i.events != []
  {
    Finished(i) ==>
      || i.request.job !in attempts
      || exists u :: EventUids(i.events) == {u} && u in c.records && c.records[u].name == i.request.job && TerminalPhase(c.records[u].phase)
  }

  function Unfinished(j: Intents): set<string> {
    set n | n in j && j[n].events != [] && !Finished(j[n])
  }

  /** No node is reserved twice. */
  ghost predicate OnePerNode(j: Intents) {
    forall a, b | a in Unfinished(j) && b in Unfinished(j) && a != b :: j[a].request.node != j[b].request.node
  }

  datatype Row = Row(node: string, phase: string)

  /** project_submission_jobs: the session CSV, rebuilt from the journal. */
  function Projection(j: Intents): map<string, Row> {
    map n | n in j && j[n].events != [] && Last(j[n]).state != NotCreated && EverSubmitting(j[n]) ::
      Row(j[n].request.node, Last(j[n]).phase)
  }

  ghost predicate WellKept(j: Intents) {
    && (forall n | n in j :: j[n].request.job == n && j[n].events != [])
    && (forall a, b | a in j && b in j && a != b :: j[a].request.RunId() != j[b].request.RunId())
  }

  ghost predicate RowsMatch(rows: map<string, Row>, j: Intents) {
    forall n | n in rows :: n in j && rows[n].node == j[n].request.node
  }

  /** Each name has at most one create attempt, and only after its intent said so. */
  ghost predicate AttemptsRecorded(j: Intents, attempts: seq<string>) {
    && (forall a, b | 0 <= a < b < |attempts| :: attempts[a] != attempts[b])
    && (forall n | n in attempts :: n in j && EverSubmitting(j[n]))
  }

  ghost predicate Inv(limit: nat, j: Intents, rows: map<string, Row>, c: Cluster, attempts: seq<string>) {
    && WellKept(j) && RowsMatch(rows, j) && Coherent(c) && NoImpostor(j, c)
    && AttemptsRecorded(j, attempts)
    && (forall n | n in j :: FinishedTruth(j[n], c, attempts))
    && OnePerNode(j) && |Unfinished(j)| <= limit
  }

  /** Run ids are attempted at most once as well. */
  lemma RunIdsAttemptedOnce(limit: nat, j: Intents, rows: map<string, Row>, c: Cluster, attempts: seq<string>, a: nat, b: nat)
    requires Inv(limit, j, rows, c, attempts) && a < b < |attempts|
    ensures attempts[a] in j && attempts[b] in j && j[attempts[a]].request.RunId() != j[attempts[b]].request.RunId()
  {
    assert attempts[a] in attempts && attempts[b] in attempts;
  }

  lemma EvolutionKeepsInv(limit: nat, j: Intents, rows: map<string, Row>, c: Cluster, attempts: seq<string>, d: Cluster)
    requires Inv(limit, j, rows, c, attempts) && Evolves(c, d) && NoImpostor(j, d)
    ensures Inv(limit, j, rows, d, attempts)
  {
  }

  function Appended(j: Intents, n: string, e: Event): Intents
    requires n in j
  {
    j[n := j[n].(events := j[n].events + [e])]
  }

  lemma AppendedUnfinished(j: Intents, n: string, e: Event)
    requires n in j && j[n].events != [] && !Finished(j[n])
    ensures Unfinished(Appended(j, n, e)) <= Unfinished(j)
    ensures n !in Unfinished(Appended(j, n, e)) ==> Finished(Appended(j, n, e)[n])
  {
  }

  lemma AppendKeepsAttempts(j: Intents, attempts: seq<string>, n: string, e: Event)
    requires AttemptsRecorded(j, attempts) && n in j
    ensures AttemptsRecorded(Appended(j, n, e), attempts)
  {
    forall m | m in attempts ensures m in Appended(j, n, e) && EverSubmitting(Appended(j, n, e)[m]) {
      if m == n {
        var x :| 0 <= x < |j[n].events| && j[n].events[x].state == Submitting;
        assert Appended(j, n, e)[n].events[x].state == Submitting;
      }
    }
  }

  lemma AppendKeepsReservations(j: Intents, n: string, e: Event)
    requires OnePerNode(j) && n in j && j[n].events != [] && !Finished(j[n])
    ensures OnePerNode(Appended(j, n, e)) && |Unfinished(Appended(j, n, e))| <= |Unfinished(j)|
  {
    AppendedUnfinished(j, n, e);
    SubsetCard(Unfinished(Appended(j, n, e)), Unfinished(j));
  }

  lemma AppendGrows(j: Intents, n: string, e: Event)
    requires n in j && (j[n].events == [] || !Finished(j[n]))
    ensures Grows(j, Appended(j, n, e))
  {
  }

  /** Appending to an unfinished intent keeps everything, provided a finishing event is true. */
  lemma AppendKeepsInv(limit: nat, j: Intents, rows: map<string, Row>, c: Cluster, attempts: seq<string>, n: string, e: Event)
    requires Inv(limit, j, rows, c, attempts) && n in j && !Finished(j[n])
    requires FinishedTruth(Appended(j, n, e)[n], c, attempts)
    ensures Inv(limit, Appended(j, n, e), rows, c, attempts)
    ensures Grows(j, Appended(j, n, e))
  {
    hide Finished, AttemptsRecorded, Unfinished, OnePerNode, EverSubmitting, Placed;
    AppendedUnfinished(j, n, e);
    AppendKeepsAttempts(j, attempts, n, e);
    AppendKeepsReservations(j, n, e);
    AppendGrows(j, n, e);
  }

  lemma ProjectionKeepsInv(limit: nat, j: Intents, rows: map<string, Row>, c: Cluster, attempts: seq<string>)
    requires Inv(limit, j, rows, c, attempts)
    ensures Inv(limit, j, Projection(j), c, attempts)
  {
  }

  /** verify_submission_identity: the observed Job carries the requested workload under the only
      uid the journal knows. */
  predicate SameIdentity(i: Intent, uid: nat, r: Record) {
    r.name == i.request.job && !r.deleting && KnownUids(i.events) <= {uid} && r.manifest == i.request.manifest
  }

  /** A tracking observation that claims the end names a terminal Job. */
  ghost predicate ObservationTruth(r: Request, e: Event, c: Cluster) {
    && e.state in {Observed, Uncertain, Conflict, TrackingFinished}
    && (e.state == TrackingFinished ==>
          e.uid.Some? && e.uid.value in c.records && c.records[e.uid.value].name == r.job && TerminalPhase(c.records[e.uid.value].phase))
  }

  lemma TrueObservationFinishesTruly(i: Intent, e: Event, c: Cluster, attempts: seq<string>)
    requires ObservationTruth(i.request, e, c)
    ensures FinishedTruth(Intent(i.request, i.events + [e]), c, attempts)
  {
  }

  /** Any event that is not a release leaves the intent unfinished. */
  lemma OtherEventsDoNotFinish(i: Intent, e: Event)
    requires e.state !in {NotCreated, VerificationFinished, TrackingFinished}
    ensures !Finished(Intent(i.request, i.events + [e]))
  {
  }

  lemma NewIntentAttempts(j: Intents, attempts: seq<string>, r: Request, i: Intent)
    requires AttemptsRecorded(j, attempts) && r.job !in j
    ensures AttemptsRecorded(j[r.job := i], attempts) && r.job !in attempts
  {
  }

  lemma NewIntentIsPlaced(j: Intents, c: Cluster, r: Request, i: Intent)
    requires NoImpostor(j, c) && r.job !in j && i.request == r && Placed(c, r.job, r.node)
    ensures NoImpostor(j[r.job := i], c)
  {
    var k := j[r.job := i];
    forall n | n in Unfinished(k) ensures Placed(c, n, k[n].request.node) {
      assert n == r.job || n in Unfinished(j);
    }
  }

  lemma NewIntentReservations(j: Intents, r: Request, i: Intent)
    requires OnePerNode(j) && r.job !in j && i.request == r && i.events != []
    requires forall n | n in Unfinished(j) :: j[n].request.node != r.node
    ensures OnePerNode(j[r.job := i]) && |Unfinished(j[r.job := i])| <= |Unfinished(j)| + 1
  {
    assert Unfinished(j[r.job := i]) <= Unfinished(j) + {r.job};
    SubsetCard(Unfinished(j[r.job := i]), Unfinished(j) + {r.job});
  }

  /** Recording a new intent for a fresh name, fresh run and free node, with room to spare. */
  lemma NewIntentKeepsInv(limit: nat, j: Intents, rows: map<string, Row>, c: Cluster, attempts: seq<string>, r: Request)
    requires Inv(limit, j, rows, c, attempts) && r.job !in j
    requires forall n | n in j :: j[n].request.RunId() != r.RunId()
    requires forall n | n in Unfinished(j) :: j[n].request.node != r.node
    requires |Unfinished(j)| < limit
    requires Placed(c, r.job, r.node)
    ensures Inv(limit, j[r.job := Intent(r, [Plain(Prepared)])], rows, c, attempts)
    ensures Grows(j, j[r.job := Intent(r, [Plain(Prepared)])])
  {
    hide AttemptsRecorded, Unfinished, OnePerNode, Finished, NoImpostor;
    var i := Intent(r, [Plain(Prepared)]);
    NewIntentIsPlaced(j, c, r, i);
    NewIntentAttempts(j, attempts, r, i);
    NewIntentReservations(j, r, i);
    OtherEventsDoNotFinish(Intent(r, []), Plain(Prepared));
    assert [] + [Plain(Prepared)] == [Plain(Prepared)];
  }

  lemma AttemptKeepsRecord(j: Intents, attempts: seq<string>, n: string)
    requires AttemptsRecorded(j, attempts) && n in j && EverSubmitting(j[n]) && n !in attempts
    ensures AttemptsRecorded(j, attempts + [n])
  {
  }

  /** The one create attempt of an unfinished intent, whatever the cluster made of it. */
  lemma AttemptKeepsInv(limit: nat, j: Intents, rows: map<string, Row>, c: Cluster, attempts: seq<string>, d: Cluster, n: string)
    requires Inv(limit, j, rows, c, attempts) && Evolves(c, d) && NoImpostor(j, d)
    requires n in j && !Finished(j[n]) && EverSubmitting(j[n]) && n !in attempts
    ensures Inv(limit, j, rows, d, attempts + [n])
  {
    hide AttemptsRecorded, OnePerNode, Finished, EverSubmitting, RowsMatch, NoImpostor, Unfinished;
    AttemptKeepsRecord(j, attempts, n);
    forall m | m in j ensures FinishedTruth(j[m], d, attempts + [n]) {
      assert FinishedTruth(j[m], c, attempts);
    }
  }

  /** Room for one more intent on a node that carries none. */
  ghost predicate HasRoom(limit: nat, j: Intents, r: Request) {
    && r.job !in j && (forall n | n in j :: j[n].request.RunId() != r.RunId())
    && (forall n | n in Unfinished(j) :: j[n].request.node != r.node)
    && |Unfinished(j)| < limit
  }

  /** The first durable record of an admitted request, written or not. */
  lemma PreparedKeepsInv(limit: nat, j: Intents, rows: map<string, Row>, c: Cluster, attempts: seq<string>, r: Request, k: Intents, rows': map<string, Row>)
    requires Inv(limit, j, rows, c, attempts) && HasRoom(limit, j, r)
    requires Placed(c, r.job, r.node)
    requires k == j || k == j[r.job := Intent(r, [Plain(Prepared)])]
    requires rows' == rows || rows' == Projection(k)
    ensures Inv(limit, k, rows', c, attempts) && Grows(j, k) && r.job !in attempts
    ensures k != j ==> !Finished(k[r.job])
  {
    hide Inv, HasRoom, Unfinished, Finished;
    NewIntent(limit, j, rows, c, attempts, r);
    ProjectionKeepsInv(limit, k, rows, c, attempts);
  }

  lemma NewIntent(limit: nat, j: Intents, rows: map<string, Row>, c: Cluster, attempts: seq<string>, r: Request)
    requires Inv(limit, j, rows, c, attempts) && HasRoom(limit, j, r)
    requires Placed(c, r.job, r.node)
    ensures var k := j[r.job := Intent(r, [Plain(Prepared)])];
            Inv(limit, k, rows, c, attempts) && Grows(j, k) && r.job !in attempts && !Finished(k[r.job])
    ensures Grows(j, j)
  {
    hide Unfinished, Finished, FinishedTruth;
    NewIntentKeepsInv(limit, j, rows, c, attempts, r);
    NewIntentAttempts(j, attempts, r, Intent(r, [Plain(Prepared)]));
    OtherEventsDoNotFinish(Intent(r, []), Plain(Prepared));
    assert [] + [Plain(Prepared)] == [Plain(Prepared)];
  }

  lemma PlainEventsAreTrue(i: Intent, e: Event, c: Cluster, attempts: seq<string>)
    requires e.state !in {VerificationFinished, TrackingFinished} && (e.state == NotCreated ==> i.request.job !in attempts)
    ensures FinishedTruth(Intent(i.request, i.events + [e]), c, attempts)
    ensures e.state != NotCreated ==> !Finished(Intent(i.request, i.events + [e]))
  {
  }

  lemma SubmittingRecorded(i: Intent, e: Event)
    requires e.state == Submitting || EverSubmitting(i)
    ensures EverSubmitting(Intent(i.request, i.events + [e]))
  {
    var k := Intent(i.request, i.events + [e]);
    if e.state == Submitting {
      assert k.events[|i.events|].state == Submitting;
    } else {
      var x :| 0 <= x < |i.events| && i.events[x].state == Submitting;
      assert k.events[x].state == Submitting;
    }
  }
}
