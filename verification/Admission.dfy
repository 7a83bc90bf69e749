/** Submission and reconciliation under the admission lock (cval/jobs/manager.py). Every durable
    write may fail before or after taking effect, every cluster call may lose its reply, and the
    process may die between any two of them. */
module Admission {
  import opened Wrappers
  import opened Journal
  import opened Sets

  /** The three scans that fill the map of active names, restricted to the names seen so far. */
  ghost function IntentNodes(j: Intents, seen: set<string>): map<string, string> {
    map n | n in seen && n in Unfinished(j) :: j[n].request.node
  }

  ghost function RowNodes(rows: map<string, Row>, seen: set<string>): map<string, string> {
    map n | n in seen && n in rows && !TerminalPhase(rows[n].phase) :: rows[n].node
  }

  ghost function LiveNodes(c: Cluster, seen: set<string>): map<string, string>
    requires Coherent(c)
  {
    map n | n in seen && n in c.live && Occupies(c.records[c.live[n]]) && |c.records[c.live[n]].targets| == 1 :: Target(c.records[c.live[n]].targets)
  }

  lemma ScanOne(j: Intents, rows: map<string, Row>, c: Cluster, seen: set<string>, n: string)
    requires Coherent(c)
    ensures n in Unfinished(j) ==> IntentNodes(j, seen + {n}) == IntentNodes(j, seen)[n := j[n].request.node]
    ensures n !in Unfinished(j) ==> IntentNodes(j, seen + {n}) == IntentNodes(j, seen)
    ensures n in rows && !TerminalPhase(rows[n].phase) ==> RowNodes(rows, seen + {n}) == RowNodes(rows, seen)[n := rows[n].node]
    ensures n in rows && TerminalPhase(rows[n].phase) ==> RowNodes(rows, seen + {n}) == RowNodes(rows, seen)
    ensures n in c.live && Occupies(c.records[c.live[n]]) && |c.records[c.live[n]].targets| == 1 ==>
              LiveNodes(c, seen + {n}) == LiveNodes(c, seen)[n := Target(c.records[c.live[n]].targets)]
    ensures n in c.live && !Occupies(c.records[c.live[n]]) ==> LiveNodes(c, seen + {n}) == LiveNodes(c, seen)
  {
  }

  /** Active names and their nodes: unfinished intents, then session rows, then live Jobs, each
      later source overriding the earlier ones by name. */
  ghost function Active(j: Intents, rows: map<string, Row>, c: Cluster): map<string, string>
    requires Coherent(c)
  {
    IntentNodes(j, j.Keys) + RowNodes(rows, rows.Keys) + LiveNodes(c, c.live.Keys)
  }

  ghost function Target(targets: set<string>): string
    requires |targets| == 1
    ensures targets == {Target(targets)}
  {
    var t :| t in targets;
    assert |targets - {t}| == 0;
    t
  }

  /** The exact admission condition of check_active_jobs, cooldown and inventory errors aside. */
  ghost predicate Admissible(limit: nat, j: Intents, rows: map<string, Row>, c: Cluster, r: Request)
    requires Coherent(c)
  {
    && r.job !in j && (forall n | n in j :: j[n].request.RunId() != r.RunId())
    && r.job !in rows && (forall n | n in rows && !TerminalPhase(rows[n].phase) :: rows[n].node != "")
    && r.job !in c.live && (forall n | n in c.live && Occupies(c.records[c.live[n]]) :: |c.records[c.live[n]].targets| == 1)
    && r.node !in Active(j, rows, c).Values
    && |Active(j, rows, c)| < limit
  }

  lemma UnfinishedAreActive(j: Intents, rows: map<string, Row>, c: Cluster)
    requires Coherent(c)
    ensures Unfinished(j) <= Active(j, rows, c).Keys
    ensures |Unfinished(j)| <= |Active(j, rows, c)|
  {
    SubsetCard(Unfinished(j), Active(j, rows, c).Keys);
  }

  /** Without an impostor, an admitted node carries no unfinished intent. */
  lemma AdmittedNodeIsFree(limit: nat, j: Intents, rows: map<string, Row>, c: Cluster, r: Request)
    requires Coherent(c) && RowsMatch(rows, j) && NoImpostor(j, c) && Admissible(limit, j, rows, c, r)
    ensures forall n | n in Unfinished(j) :: j[n].request.node != r.node
    ensures |Unfinished(j)| < limit
  {
    hide Active;
    UnfinishedAreActive(j, rows, c);
    var active := Active(j, rows, c);
    forall n | n in Unfinished(j) ensures j[n].request.node != r.node {
      ReservationHiddenIff(j, rows, c, n);
      assert active[n] in active.Values;
    }
  }

  /** The reservation of one unfinished intent is overlooked exactly when a live, non-terminal
      validation Job of the same name is pinned to another node. */
  lemma ReservationHiddenIff(j: Intents, rows: map<string, Row>, c: Cluster, n: string)
    requires Coherent(c) && RowsMatch(rows, j) && n in Unfinished(j)
    requires n in c.live && Occupies(c.records[c.live[n]]) ==> |c.records[c.live[n]].targets| == 1
    ensures Active(j, rows, c)[n] != j[n].request.node <==>
              n in c.live && Occupies(c.records[c.live[n]]) && c.records[c.live[n]].targets != {j[n].request.node}
  {
  }

  /** The journal a crash leaves right after the create attempt. */
  function Reserved(r: Request): Intent {
    Intent(r, [Plain(Prepared), Plain(Submitting)])
  }

  lemma ReservedIsUnfinished(r: Request)
    ensures !Finished(Reserved(r)) && EverSubmitting(Reserved(r))
  {
  }

  lemma ReservedInv(limit: nat, r: Request, records: map<nat, Record>)
    requires limit > 0
    ensures Inv(limit, map[r.job := Reserved(r)], map[], Cluster(map[], records), [r.job])
    ensures Unfinished(map[r.job := Reserved(r)]) == {r.job}
  {
    hide Finished, EverSubmitting;
    ReservedIsUnfinished(r);
    assert Unfinished(map[r.job := Reserved(r)]) == {r.job};
  }

  lemma ActiveOfImpostor(j: Intents, c: Cluster, n: string, uid: nat)
    requires Coherent(c) && Unfinished(j) == {n} && c.live == map[n := uid] && uid in c.records
    requires Occupies(c.records[uid]) && |c.records[uid].targets| == 1
    ensures Active(j, map[], c).Keys == {n} && Active(j, map[], c)[n] == Target(c.records[uid].targets)
  {
  }

  /** So the one-per-node rule needs its environment assumption: from a sound state, as soon as an
      impostor runs, check_active_jobs admits a second intent on the reserved node. */
  lemma ImpostorAdmitsSecondIntent(limit: nat, first: Request, second: Request, impostor: Record, uid: nat)
    requires limit > 1 && first.node == second.node && first.job != second.job && first.RunId() != second.RunId()
    requires impostor.name == first.job && Occupies(impostor) && |impostor.targets| == 1 && first.node !in impostor.targets
    ensures var j, records := map[first.job := Reserved(first)], map[uid := impostor];
            && Inv(limit, j, map[], Cluster(map[], records), [first.job]) && Unfinished(j) == {first.job}
            && Coherent(Cluster(map[first.job := uid], records))
            && Admissible(limit, j, map[], Cluster(map[first.job := uid], records), second)
  {
    hide Inv, Finished, Occupies, Active, Unfinished;
    ReservedInv(limit, first, map[uid := impostor]);
    var j, c := map[first.job := Reserved(first)], Cluster(map[first.job := uid], map[uid := impostor]);
    ActiveOfImpostor(j, c, first.job, uid);
    var active := Active(j, map[], c);
    assert active == map[first.job := Target(impostor.targets)];
    assert active.Values == {Target(impostor.targets)};
    assert |active| == 1;
  }

  /** A validation Job that holds a node under a planned name holds the planned one. */
  predicate PlacedAsPlanned(planned: seq<Request>, c: Cluster)
    requires Coherent(c)
  {
    forall r | r in planned :: Placed(c, r.job, r.node)
  }

  /** The Job a create makes; the server may have altered the workload, never the placement. */
  function Made(c: Cluster, r: Request, uid: nat, workload: string): Cluster {
    Cluster(c.live[r.job := uid], c.records[uid := Record(r.job, Manifest(r.node, workload), true, {r.node}, "Pending", [], false)])
  }

  datatype Answer = NoAnswer | Answer(reply: Reply, job: Option<Record>)

  datatype Result = Accepted | Stopped | Crashed

  class Session {
    /** min(scheduling.batch_size, policy.max_batch_size), fixed by the session snapshot. */
    const limit: nat
    var journal: Intents
    var rows: map<string, Row>
    var cluster: Cluster
    /** Names passed to kubectl create, in order. */
    ghost var attempts: seq<string>

    constructor (limit: nat, c: Cluster)
      requires Coherent(c)
      ensures journal == map[] && rows == map[] && cluster == c && attempts == [] && this.limit == limit
      ensures Valid()
    {
      this.limit := limit;
      journal, rows, cluster, attempts := map[], map[], c, [];
    }

    ghost predicate Valid()
      reads this
    {
      Inv(limit, journal, rows, cluster, attempts)
    }

    /** Anything may happen on the cluster, short of an impostor for a retained or planned name. */
    method Interfere(planned: seq<Request>)
      requires Valid() && Planned(planned)
      modifies this`cluster
      ensures Valid() && Planned(planned) && Evolves(old(cluster), cluster)
    {
      var next: Cluster := *;
      if Evolves(cluster, next) && NoImpostor(journal, next) && PlacedAsPlanned(planned, next) {
        EvolutionKeepsInv(limit, journal, rows, cluster, attempts, next);
        cluster := next;
      }
    }

    ghost predicate Planned(planned: seq<Request>)
      reads this
    {
      Coherent(cluster) && PlacedAsPlanned(planned, cluster)
    }

    /** retain_submission_event: read the journal back, append, replace it durably, then rebuild the
        CSV. ok is false when the call raised; the append may have taken effect even then. */
    method Retain(r: Request, e: Event) returns (ok: bool)
      modifies this`journal, this`rows
      ensures journal == old(journal) ||
              (if r.job in old(journal) then old(journal)[r.job].request == r && journal == Appended(old(journal), r.job, e)
               else journal == old(journal)[r.job := Intent(r, [e])])
      ensures ok ==> journal != old(journal)
      ensures rows == old(rows) || rows == Projection(journal)
    {
      var intent := if r.job in journal then journal[r.job] else Intent(r, []);
      if intent.request != r {
        return false;
      }
      var written: bool := *;
      if !written {
        return false;
      }
      journal := journal[r.job := intent.(events := intent.events + [e])];
      assert |journal[r.job].events| > |intent.events| && [] + [e] == [e];
      var projected: bool := *;
      if projected {
        rows := Projection(journal);
      }
      ok := projected;
    }

    /** Retain on an existing unfinished intent. */
    method RetainMore(r: Request, e: Event) returns (ok: bool)
      requires Valid() && r.job in journal && journal[r.job].request == r && !Finished(journal[r.job])
      requires FinishedTruth(Appended(journal, r.job, e)[r.job], cluster, attempts)
      modifies this`journal, this`rows
      ensures Valid() && Grows(old(journal), journal)
      ensures journal == old(journal) || journal == Appended(old(journal), r.job, e)
      ensures ok ==> journal == Appended(old(journal), r.job, e)
    {
      hide Inv, Finished, FinishedTruth, Grows;
      JournalBasics(limit, journal, rows, cluster, attempts);
      AppendKeepsInv(limit, journal, rows, cluster, attempts, r.job, e);
      ProjectionKeepsInv(limit, Appended(journal, r.job, e), rows, cluster, attempts);
      ProjectionKeepsInv(limit, journal, rows, cluster, attempts);
      ok := Retain(r, e);
    }

    /** check_active_jobs: three scans that fill one name-to-node map. The flags stand for an
        incomplete inventory and for the node's cooldown. */
    method CheckActive(r: Request, inventoryComplete: bool, coolingDown: bool) returns (admitted: bool)
      requires Coherent(cluster) && (forall n | n in journal :: journal[n].events != [])
      ensures admitted <==> inventoryComplete && !coolingDown && Admissible(limit, journal, rows, cluster, r)
    {
      hide Coherent, IntentNodes, RowNodes, LiveNodes, Occupies;
      if !inventoryComplete || coolingDown {
        return false;
      }
      var intents, fresh1 := ScanIntents(r);
      if !fresh1 {
        return false;
      }
      var sessions, fresh2 := ScanRows(r);
      if !fresh2 {
        return false;
      }
      var jobs, fresh3 := ScanLive(r);
      if !fresh3 {
        return false;
      }
      var active := intents + sessions + jobs;
      admitted := r.node !in active.Values && |active| < limit;
    }

    method ScanIntents(r: Request) returns (active: map<string, string>, ok: bool)
      requires Coherent(cluster) && (forall n | n in journal :: journal[n].events != [])
      ensures ok <==> r.job !in journal && forall n | n in journal :: journal[n].request.RunId() != r.RunId()
      ensures ok ==> active == IntentNodes(journal, journal.Keys)
    {
      hide IntentNodes, Finished, Coherent;
      active := map[];
      var names := journal.Keys;
      ghost var seen: set<string> := {};
      NothingScanned(journal, rows, cluster);
      while names != {}
        invariant seen + names == journal.Keys && seen !! names
        invariant forall n | n in seen :: n != r.job && journal[n].request.RunId() != r.RunId()
        invariant active == IntentNodes(journal, seen)
        decreases names
      {
        var n :| n in names;
        assert n in journal;
        if n == r.job || journal[n].request.RunId() == r.RunId() {
          return active, false;
        }
        ScanOne(journal, rows, cluster, seen, n);
        if !Finished(journal[n]) {
          active := active[n := journal[n].request.node];
        }
        names, seen := names - {n}, seen + {n};
      }
      assert seen == journal.Keys;
      ok := true;
    }

    method ScanRows(r: Request) returns (active: map<string, string>, ok: bool)
      requires Coherent(cluster)
      ensures ok <==> r.job !in rows && forall n | n in rows && !TerminalPhase(rows[n].phase) :: rows[n].node != ""
      ensures ok ==> active == RowNodes(rows, rows.Keys)
    {
      hide RowNodes, Coherent, TerminalPhase;
      active := map[];
      var names := rows.Keys;
      ghost var seen: set<string> := {};
      NothingScanned(journal, rows, cluster);
      while names != {}
        invariant seen + names == rows.Keys && seen !! names
        invariant forall n | n in seen :: n != r.job && (!TerminalPhase(rows[n].phase) ==> rows[n].node != "")
        invariant active == RowNodes(rows, seen)
        decreases names
      {
        var n :| n in names;
        assert n in rows;
        if n == r.job || (!TerminalPhase(rows[n].phase) && rows[n].node == "") {
          return active, false;
        }
        ScanOne(journal, rows, cluster, seen, n);
        if !TerminalPhase(rows[n].phase) {
          active := active[n := rows[n].node];
        }
        names, seen := names - {n}, seen + {n};
      }
      assert seen == rows.Keys;
      ok := true;
    }

    method ScanLive(r: Request) returns (active: map<string, string>, ok: bool)
      requires Coherent(cluster)
      ensures ok <==> r.job !in cluster.live && forall n | n in cluster.live && Occupies(cluster.records[cluster.live[n]]) :: |cluster.records[cluster.live[n]].targets| == 1
      ensures ok ==> active == LiveNodes(cluster, cluster.live.Keys)
    {
      hide LiveNodes, Occupies;
      active := map[];
      var names := cluster.live.Keys;
      ghost var seen: set<string> := {};
      NothingScanned(journal, rows, cluster);
      while names != {}
        invariant seen + names == cluster.live.Keys && seen !! names
        invariant r.job !in seen
        invariant forall n | n in seen && Occupies(cluster.records[cluster.live[n]]) :: |cluster.records[cluster.live[n]].targets| == 1
        invariant active == LiveNodes(cluster, seen)
        decreases names
      {
        var n :| n in names;
        assert n in cluster.live;
        var job := cluster.records[cluster.live[n]];
        if n == r.job || (Occupies(job) && |job.targets| != 1) {
          return active, false;
        }
        ScanOne(journal, rows, cluster, seen, n);
        if Occupies(job) {
          var target :| target in job.targets;
          assert job.targets == {Target(job.targets)};
          active := active[n := target];
        }
        names, seen := names - {n}, seen + {n};
      }
      assert seen == cluster.live.Keys;
      ok := true;
    }

    /** kubectl create: the Job may or may not be made, and the answer may or may not arrive. A
        zero return code is only ever sent for a Job that was made. */
    method Create(r: Request) returns (answer: Answer)
      requires Valid() && r.job in journal && journal[r.job].request == r && EverSubmitting(journal[r.job]) && r.job !in attempts
      requires !Finished(journal[r.job])
      modifies this`cluster, this`attempts
      ensures Valid() && attempts == old(attempts) + [r.job]
      ensures Evolves(old(cluster), cluster)
      ensures answer.Answer? && answer.reply.returnCode == 0 ==> answer.reply.uid.Some? && answer.job.Some?
    {
      hide Inv, Finished, EverSubmitting;
      var made: bool, uid: nat, workload: string, code: int, answered: bool := *, *, *, *, *;
      PlacementHolds(limit, journal, rows, cluster, attempts);
      made := made && r.job !in cluster.live && uid !in cluster.records;
      var after := if made then Made(cluster, r, uid, workload) else cluster;
      if made {
        MadeIsLawful(limit, journal, rows, cluster, attempts, r, uid, workload);
      } else {
        JournalBasics(limit, journal, rows, cluster, attempts);
      }
      AttemptKeepsInv(limit, journal, rows, cluster, attempts, after, r.job);
      attempts := attempts + [r.job];
      cluster := after;
      if !answered || (code == 0 && !made) {
        return NoAnswer;
      }
      answer := if code == 0 then Answer(Reply(0, Some(uid)), Some(cluster.records[uid])) else Answer(Reply(code, None), None);
    }

    /** _observe_validation_job, reduced to what the journal stores. */
    method Observe(i: Intent) returns (e: Event)
      requires Coherent(cluster)
      ensures ObservationTruth(i.request, e, cluster)
    {
      var available: bool, odd: bool, lost: bool, logs: bool := *, *, *, *;
      if !available {
        return Plain(Uncertain);
      }
      if i.request.job !in cluster.live {
        return Plain(Uncertain).(phase := "Missing");
      }
      var uid := cluster.live[i.request.job];
      var job := cluster.records[uid];
      if !SameIdentity(i, uid, job) {
        return Plain(Conflict);
      }
      if odd || |job.pods| > 1 {
        return Plain(Conflict).(uid := Some(uid), phase := job.phase);
      }
      if lost {
        return Plain(Uncertain).(uid := Some(uid), phase := job.phase);
      }
      var terminal := TerminalPhase(job.phase) && forall p | p in job.pods :: PodDone(p);
      var tracking := Tracking(true, terminal, i.request.ToBinding(), job.pods);
      e := Event(if terminal then TrackingFinished else Observed, Some(uid), job.phase, None, Some(tracking), None);
    }

    /** The scan that collects unfinished intents, refusing conflicting ones and those that never
        reached submission. */
    method PendingIntents() returns (ready: bool, pending: set<string>)
      requires forall n | n in journal :: journal[n].events != []
      ensures ready <==> forall n | n in Unfinished(journal) :: Last(journal[n]).state != Conflict && EverSubmitting(journal[n])
      ensures ready ==> pending == Unfinished(journal)
    {
      hide Finished, EverSubmitting;
      pending := {};
      var names := journal.Keys;
      ghost var done: set<string> := {};
      while names != {}
        invariant done + names == journal.Keys && done !! names
        invariant pending == set n | n in done && n in Unfinished(journal)
        invariant forall n | n in pending :: Last(journal[n]).state != Conflict && EverSubmitting(journal[n])
        decreases names
      {
        var n :| n in names;
        assert n in journal;
        if !Finished(journal[n]) {
          if Last(journal[n]).state == Conflict || !EverSubmitting(journal[n]) {
            assert n in Unfinished(journal);
            return false, {};
          }
          pending := pending + {n};
        }
        names, done := names - {n}, done + {n};
      }
      assert done == journal.Keys;
      ready := true;
    }

    method ObserveAll(pending: set<string>) returns (seen: map<string, Event>)
      requires Coherent(cluster) && pending <= journal.Keys
      ensures seen.Keys == pending
      ensures forall n | n in pending :: ObservationTruth(journal[n].request, seen[n], cluster)
    {
      hide ObservationTruth, Coherent;
      seen := map[];
      var names := pending;
      while names != {}
        invariant names <= pending && seen.Keys == pending - names
        invariant forall n | n in seen :: ObservationTruth(journal[n].request, seen[n], cluster)
        decreases names
      {
        var n :| n in names;
        var e := Observe(journal[n]);
        seen := seen[n := e];
        names := names - {n};
      }
    }

    /** The final scan: every observation must have seen its Job alive or finished its intent. */
    method Settled(pending: set<string>, seen: map<string, Event>) returns (ok: bool)
      requires pending <= journal.Keys && seen.Keys == pending && forall n | n in pending :: journal[n].events != []
      ensures ok <==> forall n | n in pending :: seen[n].state == Observed || Finished(journal[n])
    {
      hide Finished;
      var names := pending;
      while names != {}
        invariant names <= pending
        invariant forall n | n in pending - names :: seen[n].state == Observed || Finished(journal[n])
        decreases names
      {
        var n :| n in names;
        if seen[n].state != Observed && !Finished(journal[n]) {
          return false;
        }
        names := names - {n};
      }
      ok := true;
    }

    method RetainObserved(n: string, e: Event, ghost j0: Intents, ghost c0: Cluster) returns (ok: bool)
      requires Valid() && Since(j0, c0) && n in journal && journal[n].request.job == n && journal[n].events != [] && !Finished(journal[n])
      requires ObservationTruth(journal[n].request, e, cluster)
      modifies this`journal, this`rows
      ensures Valid() && Since(j0, c0)
      ensures journal == old(journal) || journal == Appended(old(journal), n, e)
      ensures ok ==> journal == Appended(old(journal), n, e)
    {
      hide Inv, Finished, Grows, ObservationTruth, Evolves;
      ghost var j1 := journal;
      TrueObservationFinishesTruly(journal[n], e, cluster, attempts);
      ok := RetainMore(journal[n].request, e);
      GrowsTransitive(j0, j1, journal);
    }

    /** reconcile_submission_intents: observe every unfinished intent and retain what was seen;
        never create, never retry. */
    method Reconcile() returns (result: Result)
      requires Valid()
      modifies this`journal, this`rows, this`cluster
      ensures Valid() && Grows(old(journal), journal) && Evolves(old(cluster), cluster)
      ensures journal.Keys == old(journal).Keys
      ensures result.Accepted? ==> forall n | n in Unfinished(journal) :: Last(journal[n]).state == Observed
    {
      hide Inv, Finished, EverSubmitting, Grows, KnownUids, Unfinished, ObservationTruth, Evolves, Coherent, RetainedSoFar, AllTrue;
      JournalBasics(limit, journal, rows, cluster, attempts);
      PendingAreRetained(journal);
      var ready, pending := PendingIntents();
      if !ready {
        return Stopped;
      }
      ghost var j0, c0 := journal, cluster;
      var seen := ObserveAll(pending);
      var todo := pending;
      NoneRetained(journal, pending, seen, cluster);
      while todo != {}
        invariant Valid() && Since(j0, c0) && journal.Keys == j0.Keys
        invariant RetainedSoFar(j0, journal, pending, todo, seen)
        invariant AllTrue(j0, pending, seen, cluster)
        decreases todo
      {
        var crashed: bool := *;
        if crashed {
          return Crashed;
        }
        var n :| n in todo;
        ghost var c1 := cluster;
        PlacementHolds(limit, journal, rows, cluster, attempts);
        Interfere([]);
        ObservationsStayTrue(j0, pending, seen, c1, cluster);
        EvolvesTransitive(c0, c1, cluster);
        JournalBasics(limit, journal, rows, cluster, attempts);
        StillToRetain(j0, journal, pending, todo, seen, cluster, n);
        ghost var j1 := journal;
        var ok := RetainObserved(n, seen[n], j0, c0);
        OneRetained(j0, j1, pending, todo, seen, n);
        if !ok {
          return Stopped;
        }
        todo := todo - {n};
      }
      AllRetained(j0, journal, pending, seen);
      var settled := Settled(pending, seen);
      if !settled {
        return Stopped;
      }
      ProjectionKeepsInv(limit, journal, rows, cluster, attempts);
      rows := Projection(journal);
      result := Accepted;
    }

    /** The request's intent exists and still holds its reservation. */
    ghost predicate Open(r: Request)
      reads this
    {
      r.job in journal && journal[r.job].request == r && journal[r.job].events != [] && !Finished(journal[r.job])
    }

    ghost predicate Since(j0: Intents, c0: Cluster)
      reads this
    {
      Grows(j0, journal) && Evolves(c0, cluster)
    }

    /** Retain during a submission: a plain event never finishes an intent, except not_created. */
    method Note(r: Request, e: Event, ghost j0: Intents, ghost c0: Cluster) returns (ok: bool)
      requires Valid() && Open(r) && Since(j0, c0)
      requires e.state !in {VerificationFinished, TrackingFinished} && (e.state == NotCreated ==> r.job !in attempts)
      modifies this`journal, this`rows
      ensures Valid() && Since(j0, c0)
      ensures journal == old(journal) || journal == Appended(old(journal), r.job, e)
      ensures ok ==> journal == Appended(old(journal), r.job, e)
      ensures e.state != NotCreated ==> Open(r)
      ensures e.state == Submitting && ok ==> EverSubmitting(journal[r.job])
    {
      hide Inv, Finished, EverSubmitting, Grows, FinishedTruth;
      ghost var j1 := journal;
      PlainEventsAreTrue(journal[r.job], e, cluster, attempts);
      if e.state == Submitting {
        SubmittingRecorded(journal[r.job], e);
      }
      ok := RetainMore(r, e);
      GrowsTransitive(j0, j1, journal);
    }

    method Wait(planned: seq<Request>, ghost j0: Intents, ghost c0: Cluster)
      requires Valid() && Planned(planned) && Since(j0, c0)
      modifies this`cluster
      ensures Valid() && Planned(planned) && Since(j0, c0)
    {
      hide Inv, Grows, Evolves, PlacedAsPlanned;
      ghost var c1 := cluster;
      Interfere(planned);
      EvolvesTransitive(c0, c1, cluster);
    }

    /** The exception handler: one more event if it can still be written, then stop. */
    method Abandon(r: Request, e: Event, ghost j0: Intents, ghost c0: Cluster) returns (result: Result)
      requires Valid() && Open(r) && Since(j0, c0)
      requires e.state !in {VerificationFinished, TrackingFinished} && (e.state == NotCreated ==> r.job !in attempts)
      modifies this`journal, this`rows
      ensures Valid() && Since(j0, c0) && !result.Accepted?
    {
      var crashed: bool := *;
      if crashed {
        return Crashed;
      }
      var ok := Note(r, e, j0, c0);
      result := Stopped;
    }

    /** Admission of one planned job: from the active-job check to its first durable record. */
    method SubmitOne(r: Request, inventoryComplete: bool, coolingDown: bool, nodeEligible: bool) returns (result: Result)
      requires Valid()
      modifies this
      ensures Valid() && Since(old(journal), old(cluster))
      ensures attempts == old(attempts) || attempts == old(attempts) + [r.job]
      ensures result.Accepted? ==> attempts == old(attempts) + [r.job] && Open(r) && Last(journal[r.job]).state == Submitted
    {
      hide Inv, Finished, EverSubmitting, Grows, Admissible;
      ghost var j0, c0 := journal, cluster;
      JournalBasics(limit, journal, rows, cluster, attempts);
      if r.manifest.node != r.node {
        return Stopped;
      }
      var admitted := CheckActive(r, inventoryComplete, coolingDown);
      if !admitted {
        return Stopped;
      }
      AdmittedHasRoom(limit, journal, rows, cluster, attempts, r);
      Wait([r], j0, c0);
      var ok := Retain(r, Plain(Prepared));
      assert r in [r];
      PreparedKeepsInv(limit, j0, old(rows), cluster, attempts, r, journal, rows);
      if !ok {
        return Stopped;
      }
      result := SubmitPrepared(r, nodeEligible, j0, c0);
    }

    /** From the durable intent to the create and its receipt; everything that raises ends in
        Abandon with the event the handler would write. */
    method SubmitPrepared(r: Request, nodeEligible: bool, ghost j0: Intents, ghost c0: Cluster) returns (result: Result)
      requires Valid() && Open(r) && Since(j0, c0) && r.job !in attempts
      modifies this
      ensures Valid() && Since(j0, c0)
      ensures attempts == old(attempts) || attempts == old(attempts) + [r.job]
      ensures result.Accepted? ==> attempts == old(attempts) + [r.job] && Open(r) && Last(journal[r.job]).state == Submitted
    {
      hide Inv, Finished, EverSubmitting, Grows, Evolves, SameIdentity;
      var crashed: bool := *;
      if crashed {
        return Crashed;
      }
      var ok := Note(r, Plain(Submitting), j0, c0);
      if !ok {
        result := Abandon(r, Plain(NotCreated), j0, c0);
        return;
      }
      PlacementHolds(limit, journal, rows, cluster, attempts);
      Wait([], j0, c0);
      if !nodeEligible {
        result := Abandon(r, Plain(NotCreated), j0, c0);
        return;
      }
      ghost var c1 := cluster;
      var answer := Create(r);
      EvolvesTransitive(c0, c1, cluster);
      result := Receipt(r, answer, j0, c0);
    }

    /** What follows the create: retain the raw answer, verify identity, retain the receipt. */
    method Receipt(r: Request, answer: Answer, ghost j0: Intents, ghost c0: Cluster) returns (result: Result)
      requires Valid() && Open(r) && Since(j0, c0)
      requires answer.Answer? && answer.reply.returnCode == 0 ==> answer.reply.uid.Some? && answer.job.Some?
      modifies this`journal, this`rows
      ensures Valid() && Since(j0, c0)
      ensures result.Accepted? ==> Open(r) && Last(journal[r.job]).state == Submitted
    {
      hide Inv, Finished, EverSubmitting, Grows, Evolves, SameIdentity;
      var crashed: bool, parsed: bool := *, *;
      if crashed {
        return Crashed;
      }
      if answer.NoAnswer? {
        result := Abandon(r, Plain(Uncertain), j0, c0);
        return;
      }
      var raw := Plain(Uncertain).(reply := Some(answer.reply));
      var ok := Note(r, raw, j0, c0);
      if !ok || answer.reply.returnCode != 0 || !parsed {
        result := Abandon(r, raw, j0, c0);
        return;
      }
      var uid := answer.reply.uid.value;
      if !SameIdentity(journal[r.job], uid, answer.job.value) {
        result := Abandon(r, raw.(state := Conflict), j0, c0);
        return;
      }
      ok := Note(r, Plain(Submitted).(uid := Some(uid), phase := answer.job.value.phase), j0, c0);
      if !ok {
        result := Abandon(r, raw.(uid := Some(uid)), j0, c0);
        return;
      }
      result := Accepted;
    }

    /** submit_workflow_plan: reconcile first, then admit the planned jobs one by one, stopping at
        the first that fails. */
    method Submit(plan: seq<Request>) returns (result: Result)
      requires Valid()
      modifies this
      ensures Valid() && Since(old(journal), old(cluster))
      ensures old(attempts) <= attempts
    {
      hide Inv, Grows, Evolves;
      ghost var j0, c0, a0 := journal, cluster, attempts;
      result := Reconcile();
      if !result.Accepted? {
        return;
      }
      for i := 0 to |plan|
        invariant Valid() && Since(j0, c0) && a0 <= attempts
      {
        ghost var j1, c1 := journal, cluster;
        var inventoryComplete: bool, coolingDown: bool, nodeEligible: bool := *, *, *;
        result := SubmitOne(plan[i], inventoryComplete, coolingDown, nodeEligible);
        GrowsTransitive(j0, j1, journal);
        EvolvesTransitive(c0, c1, cluster);
        if !result.Accepted? {
          return;
        }
      }
      result := Accepted;
    }
  }

  lemma AdmittedHasRoom(limit: nat, j: Intents, rows: map<string, Row>, c: Cluster, attempts: seq<string>, r: Request)
    requires Inv(limit, j, rows, c, attempts) && Admissible(limit, j, rows, c, r)
    ensures HasRoom(limit, j, r) && PlacedAsPlanned([r], c)
  {
    AdmittedNodeIsFree(limit, j, rows, c, r);
  }

  lemma MadeIsLawful(limit: nat, j: Intents, rows: map<string, Row>, c: Cluster, attempts: seq<string>, r: Request, uid: nat, workload: string)
    requires Inv(limit, j, rows, c, attempts) && r.job in j && j[r.job].request == r
    requires r.job !in c.live && uid !in c.records
    ensures Evolves(c, Made(c, r, uid, workload)) && NoImpostor(j, Made(c, r, uid, workload))
  {
  }

  lemma PlacementHolds(limit: nat, j: Intents, rows: map<string, Row>, c: Cluster, attempts: seq<string>)
    requires Inv(limit, j, rows, c, attempts)
    ensures Coherent(c) && PlacedAsPlanned([], c) && NoImpostor(j, c)
  {
  }

  /** Any schedule of submissions and reconciliations over one session, each of which may crash or
      fail anywhere, with the cluster changing in between. */
  method RunSession(limit: nat, c: Cluster, plans: seq<seq<Request>>) returns (s: Session)
    requires Coherent(c)
    ensures s.Valid() && s.limit == limit
    ensures forall a, b | 0 <= a < b < |s.attempts| :: s.attempts[a] != s.attempts[b]
    ensures |Unfinished(s.journal)| <= limit && OnePerNode(s.journal)
    ensures forall n | n in s.journal :: s.journal[n].events != [] && FinishedTruth(s.journal[n], s.cluster, s.attempts)
    ensures fresh(s)
  {
    s := new Session(limit, c);
    for i := 0 to |plans|
      invariant s.Valid() && s.limit == limit && fresh(s)
    {
      PlacementHolds(limit, s.journal, s.rows, s.cluster, s.attempts);
      s.Interfere([]);
      var result: Result;
      if plans[i] == [] {
        result := s.Reconcile();
      } else {
        result := s.Submit(plans[i]);
      }
    }
  }

  lemma JournalBasics(limit: nat, j: Intents, rows: map<string, Row>, c: Cluster, attempts: seq<string>)
    requires Inv(limit, j, rows, c, attempts)
    ensures forall n | n in j :: j[n].request.job == n && j[n].events != []
    ensures WellKept(j) && Coherent(c) && Grows(j, j) && Evolves(c, c)
  {
  }

  /** The retain loop's position: names still to do are untouched, the others carry exactly their
      one observation more. */
  ghost predicate RetainedSoFar(j0: Intents, j: Intents, pending: set<string>, todo: set<string>, seen: map<string, Event>) {
    && todo <= pending && pending == Unfinished(j0) && seen.Keys == pending && j.Keys == j0.Keys
    && (forall n | n in todo :: j[n] == j0[n])
    && (forall n | n in pending && n !in todo :: j[n] == Intent(j0[n].request, j0[n].events + [seen[n]]))
    && (forall n | n in j0 && n !in pending :: j[n] == j0[n])
  }

  ghost predicate AllTrue(j0: Intents, pending: set<string>, seen: map<string, Event>, c: Cluster) {
    pending <= j0.Keys && pending <= seen.Keys && forall n | n in pending :: ObservationTruth(j0[n].request, seen[n], c)
  }

  lemma NoneRetained(j: Intents, pending: set<string>, seen: map<string, Event>, c: Cluster)
    requires pending == Unfinished(j) && seen.Keys == pending
    requires forall n | n in pending :: n in j && ObservationTruth(j[n].request, seen[n], c)
    ensures RetainedSoFar(j, j, pending, pending, seen) && AllTrue(j, pending, seen, c)
  {
  }

  lemma StillToRetain(j0: Intents, j: Intents, pending: set<string>, todo: set<string>, seen: map<string, Event>, c: Cluster, n: string)
    requires RetainedSoFar(j0, j, pending, todo, seen) && AllTrue(j0, pending, seen, c) && n in todo
    ensures n in j && j[n].events != [] && !Finished(j[n]) && n in seen && ObservationTruth(j[n].request, seen[n], c)
  {
  }

  lemma OneRetained(j0: Intents, j: Intents, pending: set<string>, todo: set<string>, seen: map<string, Event>, n: string)
    requires RetainedSoFar(j0, j, pending, todo, seen) && n in todo
    ensures n in j && n in seen && RetainedSoFar(j0, Appended(j, n, seen[n]), pending, todo - {n}, seen)
    ensures j.Keys == j0.Keys && Appended(j, n, seen[n]).Keys == j0.Keys
  {
  }

  lemma PendingAreRetained(j: Intents)
    ensures Unfinished(j) <= j.Keys
  {
  }

  /** After the retain loop an intent is unfinished only if it was pending and still is. */
  lemma AllRetained(j0: Intents, j: Intents, pending: set<string>, seen: map<string, Event>)
    requires RetainedSoFar(j0, j, pending, {}, seen)
    ensures pending <= j.Keys && seen.Keys == pending && j.Keys == j0.Keys && Unfinished(j) <= pending
    ensures forall n | n in pending :: j[n].events != [] && Last(j[n]) == seen[n]
    ensures forall n | n in Unfinished(j) :: n in j && j[n].events != [] && !Finished(j[n])
  {
  }

  lemma ObservationsStayTrue(j: Intents, pending: set<string>, seen: map<string, Event>, c: Cluster, d: Cluster)
    requires Evolves(c, d) && AllTrue(j, pending, seen, c)
    ensures AllTrue(j, pending, seen, d)
  {
  }

  lemma NothingScanned(j: Intents, rows: map<string, Row>, c: Cluster)
    requires Coherent(c)
    ensures IntentNodes(j, {}) == map[] && RowNodes(rows, {}) == map[] && LiveNodes(c, {}) == map[]
  {
  }
}
