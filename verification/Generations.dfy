/** The four-database generation protocol: writers in validation-tests/dltest/ingest.py, readers in
    cval/storage/verification.py. Each step is one committed transaction or one query; writers are
    serialized but may stop between any two steps. */
module Generations {
  import opened Wrappers

  datatype Component = NumericalCorrectness | ComputePerformance | CollectivePerformance | OverlapPerformance

  datatype GenerationState = InProgress | Complete

  datatype Stamp = Stamp(id: nat, state: GenerationState, updatedAt: int)

  /** Rows and receipts by run key; the row type is immaterial to the protocol. */
  datatype Content = Content(rows: map<string, string>, receipts: map<string, string>)

  datatype Database = Database(content: Content, stamp: Option<Stamp>)

  /** Writing: in-progress transactions. Finalizing: the receipts of all four stores compared equal,
      and the listed components still wait for their complete stamp. */
  datatype Writer = Idle | Writing(id: nat) | Finalizing(id: nat, waiting: set<Component>)

  /** One verification attempt: a generation scan, then rows and receipts per component, then the
      generation scan again. */
  datatype Reader = Reader(before: map<Component, Stamp>, rows: map<Component, map<string, string>>,
                           receipts: map<Component, map<string, string>>, after: map<Component, Stamp>)

  const NEW_READER := Reader(map[], map[], map[], map[])

  /** published remembers the four contents each generation had when its receipts were compared. */
  datatype World = World(databases: map<Component, Database>, writer: Writer, used: set<nat>,
                         published: map<nat, map<Component, Content>>, reader: Reader)

  datatype Step =
    | Begin(id: nat)
    | Write(c: Component, content: Content, at: int)
    | CompareReceipts
    | Finalize(c: Component, at: int)
    | Stop
    | ReadBefore(c: Component)
    | ReadRows(c: Component)
    | ReadReceipts(c: Component)
    | ReadAfter(c: Component)
    | Restart

  const COMPONENTS: set<Component> := {NumericalCorrectness, ComputePerformance, CollectivePerformance, OverlapPerformance}

  lemma AllComponents(c: Component)
    ensures c in COMPONENTS
  {
  }

  function Contents(dbs: map<Component, Database>): map<Component, Content> {
    map c | c in dbs :: dbs[c].content
  }

  predicate EqualReceipts(contents: map<Component, Content>) {
    forall c, d | c in contents && d in contents :: contents[c].receipts.Keys == contents[d].receipts.Keys
  }

  /** What _generations demands of a scan: four complete stamps of one generation. */
  predicate Consistent(scan: map<Component, Stamp>) {
    && scan.Keys == COMPONENTS
    && (forall c | c in scan :: scan[c].state == Complete)
    && (forall c, d | c in scan && d in scan :: scan[c].id == scan[d].id)
  }

  predicate Accepted(r: Reader) {
    && Consistent(r.before) && r.after == r.before
    && r.rows.Keys == COMPONENTS && r.receipts.Keys == COMPONENTS
  }

  predicate Enabled(w: World, s: Step) {
    match s
    case Begin(id) => w.writer.Idle? && id !in w.used
    case Write(c, _, _) => w.writer.Writing? && c in w.databases
    case CompareReceipts => w.writer.Writing? && EqualReceipts(Contents(w.databases))
    case Finalize(c, _) => w.writer.Finalizing? && c in w.writer.waiting && c in w.databases
    case Stop => !w.writer.Idle?
    case ReadBefore(c) => c in w.databases && w.databases[c].stamp.Some? && c !in w.reader.before && w.reader.rows == map[]
    case ReadRows(c) => c in w.databases && Consistent(w.reader.before) && c !in w.reader.rows && w.reader.after == map[]
    case ReadReceipts(c) => c in w.databases && c in w.reader.rows && c !in w.reader.receipts && w.reader.after == map[]
    case ReadAfter(c) => c in w.databases && w.databases[c].stamp.Some? && w.reader.receipts.Keys == COMPONENTS && c !in w.reader.after
    case Restart => true
  }

  function Do(w: World, s: Step): World
    requires Enabled(w, s)
  {
    match s
    case Begin(id) => w.(writer := Writing(id), used := w.used + {id})
    case Write(c, content, at) => w.(databases := w.databases[c := Database(content, Some(Stamp(w.writer.id, InProgress, at)))])
    case CompareReceipts => w.(writer := Finalizing(w.writer.id, COMPONENTS), published := w.published[w.writer.id := Contents(w.databases)])
    case Finalize(c, at) =>
      w.(databases := w.databases[c := w.databases[c].(stamp := Some(Stamp(w.writer.id, Complete, at)))],
         writer := Finalizing(w.writer.id, w.writer.waiting - {c}))
    case Stop => w.(writer := Idle)
    case ReadBefore(c) => w.(reader := w.reader.(before := w.reader.before[c := w.databases[c].stamp.value]))
    case ReadRows(c) => w.(reader := w.reader.(rows := w.reader.rows[c := w.databases[c].content.rows]))
    case ReadReceipts(c) => w.(reader := w.reader.(receipts := w.reader.receipts[c := w.databases[c].content.receipts]))
    case ReadAfter(c) => w.(reader := w.reader.(after := w.reader.after[c := w.databases[c].stamp.value]))
    case Restart => w.(reader := NEW_READER)
  }

  /** Fresh databases without generation metadata, no writer and no reader at work. */
  predicate Initial(w: World) {
    && w.databases.Keys == COMPONENTS && (forall c | c in w.databases :: w.databases[c].stamp == None)
    && w.writer == Idle && w.used == {} && w.published == map[] && w.reader == NEW_READER
  }

  ghost predicate Reaches(w: World, steps: seq<Step>, v: World)
    decreases |steps|
  {
    if steps == [] then v == w
    else Enabled(w, steps[0]) && Reaches(Do(w, steps[0]), steps[1..], v)
  }

  ghost predicate CompleteStamp(s: Option<Stamp>, id: nat) {
    s.Some? && s.value.id == id && s.value.state == Complete
  }

  predicate WriterUses(w: Writer, id: nat) {
    !w.Idle? && w.id == id
  }

  /** No writer will ever stamp component c with generation id again. */
  ghost predicate Passed(w: World, c: Component, id: nat)
    requires c in w.databases
  {
    id in w.used && !WriterUses(w.writer, id) && !(w.databases[c].stamp.Some? && w.databases[c].stamp.value.id == id)
  }

  /** A complete stamp vouches for its database: the content is the published one. */
  ghost predicate Vouched(w: World, c: Component)
    requires c in w.databases
  {
    var stamp := w.databases[c].stamp;
    stamp.Some? ==>
      && stamp.value.id in w.used
      && (stamp.value.state == Complete ==>
            stamp.value.id in w.published && c in w.published[stamp.value.id] && w.databases[c].content == w.published[stamp.value.id][c])
  }

  ghost predicate WriterState(w: World) {
    match w.writer
    case Idle => true
    case Writing(id) => id in w.used && id !in w.published && forall c | c in w.databases :: !CompleteStamp(w.databases[c].stamp, id)
    case Finalizing(id, waiting) =>
      && id in w.used && id in w.published && w.published[id] == Contents(w.databases)
      && forall c | c in w.databases :: CompleteStamp(w.databases[c].stamp, id) <==> c !in waiting
  }

  ghost predicate WriterInv(w: World) {
    && w.databases.Keys == COMPONENTS
    && w.published.Keys <= w.used
    && (forall c | c in w.databases :: Vouched(w, c))
    && (forall g | g in w.published :: w.published[g].Keys == COMPONENTS && EqualReceipts(w.published[g]))
    && WriterState(w)
  }

  /** While a component still shows the stamp seen first, what was read of it is the published
      content; once it has moved on, that stamp can never come back. */
  ghost predicate ReaderAt(w: World, c: Component)
    requires c in w.databases
  {
    c in w.reader.before && w.reader.before[c].state == Complete ==>
      var g := w.reader.before[c].id;
      && g in w.used && g in w.published && c in w.published[g]
      && (CompleteStamp(w.databases[c].stamp, g) || Passed(w, c, g))
      && (c in w.reader.rows ==> w.reader.rows[c] == w.published[g][c].rows || Passed(w, c, g))
      && (c in w.reader.receipts ==> w.reader.receipts[c] == w.published[g][c].receipts || Passed(w, c, g))
      && (c in w.reader.after && w.reader.after[c].id == g ==>
            && (c in w.reader.rows ==> w.reader.rows[c] == w.published[g][c].rows)
            && (c in w.reader.receipts ==> w.reader.receipts[c] == w.published[g][c].receipts))
  }

  ghost predicate ReaderInv(w: World)
    requires w.databases.Keys == COMPONENTS
  {
    forall c | c in w.databases :: ReaderAt(w, c)
  }

  ghost predicate Phases(r: Reader) {
    && (r.rows != map[] ==> Consistent(r.before))
    && r.receipts.Keys <= r.rows.Keys
    && (r.after != map[] ==> r.receipts.Keys == COMPONENTS)
  }

  ghost predicate Inv(w: World) {
    WriterInv(w) && ReaderInv(w) && Phases(w.reader)
  }

  lemma WriteKeepsWriterInv(w: World, c: Component, content: Content, at: int)
    requires WriterInv(w) && Enabled(w, Write(c, content, at))
    ensures WriterInv(Do(w, Write(c, content, at)))
  {
  }

  lemma CompareKeepsWriterInv(w: World)
    requires WriterInv(w) && Enabled(w, CompareReceipts)
    ensures WriterInv(Do(w, CompareReceipts))
  {
    var v := Do(w, CompareReceipts);
    forall d | d in v.databases ensures Vouched(v, d) {
      assert Vouched(w, d);
      assert !CompleteStamp(w.databases[d].stamp, w.writer.id);
    }
  }

  lemma FinalizeKeepsVouched(w: World, c: Component, at: int, d: Component)
    requires WriterState(w) && d in w.databases && Vouched(w, d) && Enabled(w, Finalize(c, at))
    ensures Vouched(Do(w, Finalize(c, at)), d)
  {
  }

  lemma FinalizeKeepsWriterInv(w: World, c: Component, at: int)
    requires WriterInv(w) && Enabled(w, Finalize(c, at))
    ensures WriterInv(Do(w, Finalize(c, at)))
  {
    hide Vouched, EqualReceipts;
    var v := Do(w, Finalize(c, at));
    assert Contents(v.databases) == Contents(w.databases);
    forall d | d in v.databases ensures Vouched(v, d) {
      FinalizeKeepsVouched(w, c, at, d);
    }
  }

  lemma BeginKeepsWriterInv(w: World, id: nat)
    requires WriterInv(w) && Enabled(w, Begin(id))
    ensures WriterInv(Do(w, Begin(id)))
  {
  }

  lemma StepKeepsWriterInv(w: World, s: Step)
    requires WriterInv(w) && Enabled(w, s)
    ensures WriterInv(Do(w, s))
  {
    if s.Begin? {
      BeginKeepsWriterInv(w, s.id);
    } else if s.Write? {
      WriteKeepsWriterInv(w, s.c, s.content, s.at);
    } else if s.CompareReceipts? {
      CompareKeepsWriterInv(w);
    } else if s.Finalize? {
      FinalizeKeepsWriterInv(w, s.c, s.at);
    } else {
      var v := Do(w, s);
      forall d | d in v.databases ensures Vouched(v, d) {
        assert Vouched(w, d);
      }
    }
  }

  /** A writer step cannot disturb what the reader may rely on. */
  lemma WriterStartOrStopKeepsReaderAt(w: World, s: Step, c: Component)
    requires WriterInv(w) && c in w.databases && ReaderAt(w, c) && Enabled(w, s) && (s.Begin? || s.Stop?)
    ensures c in Do(w, s).databases && ReaderAt(Do(w, s), c)
  {
    hide EqualReceipts, Consistent;
    assert Vouched(w, c);
  }

  lemma WriteKeepsReaderAt(w: World, s: Step, c: Component)
    requires WriterInv(w) && c in w.databases && ReaderAt(w, c) && Enabled(w, s) && s.Write?
    ensures c in Do(w, s).databases && ReaderAt(Do(w, s), c)
  {
    hide EqualReceipts, Consistent;
    assert Vouched(w, c);
  }

  lemma CompareKeepsReaderAt(w: World, s: Step, c: Component)
    requires WriterInv(w) && c in w.databases && ReaderAt(w, c) && Enabled(w, s) && s.CompareReceipts?
    ensures c in Do(w, s).databases && ReaderAt(Do(w, s), c)
  {
    hide EqualReceipts, Consistent;
    assert Vouched(w, c);
  }

  lemma FinalizeKeepsReaderAt(w: World, s: Step, c: Component)
    requires WriterInv(w) && c in w.databases && ReaderAt(w, c) && Enabled(w, s) && s.Finalize?
    ensures c in Do(w, s).databases && ReaderAt(Do(w, s), c)
  {
    hide EqualReceipts, Consistent;
    assert Vouched(w, c);
  }

  lemma ReadRowsKeepsReaderAt(w: World, s: Step, c: Component)
    requires WriterInv(w) && c in w.databases && ReaderAt(w, c) && Enabled(w, s) && (s.ReadRows? || s.ReadReceipts?) && Phases(w.reader)
    ensures c in Do(w, s).databases && ReaderAt(Do(w, s), c)
  {
  }

  lemma ReadAfterKeepsReaderAt(w: World, s: Step, c: Component)
    requires WriterInv(w) && c in w.databases && ReaderAt(w, c) && Enabled(w, s) && s.ReadAfter? && Phases(w.reader)
    ensures c in Do(w, s).databases && ReaderAt(Do(w, s), c)
  {
    hide EqualReceipts, Consistent;
    assert Vouched(w, c);
  }

  lemma ScanKeepsReaderAt(w: World, s: Step, c: Component)
    requires WriterInv(w) && c in w.databases && ReaderAt(w, c) && Enabled(w, s) && (s.ReadBefore? || s.Restart?) && Phases(w.reader)
    ensures c in Do(w, s).databases && ReaderAt(Do(w, s), c)
  {
    hide EqualReceipts, Consistent;
    assert Vouched(w, c);
  }

  lemma StepKeepsReaderAt(w: World, s: Step, c: Component)
    requires WriterInv(w) && c in w.databases && ReaderAt(w, c) && Enabled(w, s) && Phases(w.reader)
    ensures c in Do(w, s).databases && ReaderAt(Do(w, s), c)
  {
    hide WriterInv, ReaderAt, Enabled, Do, Phases;
    match s
    case Begin(_) => WriterStartOrStopKeepsReaderAt(w, s, c);
    case Stop => WriterStartOrStopKeepsReaderAt(w, s, c);
    case Write(_, _, _) => WriteKeepsReaderAt(w, s, c);
    case CompareReceipts => CompareKeepsReaderAt(w, s, c);
    case Finalize(_, _) => FinalizeKeepsReaderAt(w, s, c);
    case ReadRows(_) => ReadRowsKeepsReaderAt(w, s, c);
    case ReadReceipts(_) => ReadRowsKeepsReaderAt(w, s, c);
    case ReadAfter(_) => ReadAfterKeepsReaderAt(w, s, c);
    case ReadBefore(_) => ScanKeepsReaderAt(w, s, c);
    case Restart => ScanKeepsReaderAt(w, s, c);
  }

  lemma StepKeepsReaderInv(w: World, s: Step)
    requires WriterInv(w) && ReaderInv(w) && Phases(w.reader) && Enabled(w, s) && Do(w, s).databases.Keys == COMPONENTS
    ensures ReaderInv(Do(w, s)) && Phases(Do(w, s).reader)
  {
    forall c | c in Do(w, s).databases ensures ReaderAt(Do(w, s), c) {
      assert ReaderAt(w, c);
      StepKeepsReaderAt(w, s, c);
    }
    StepKeepsPhases(w, s);
  }

  lemma StepKeepsPhases(w: World, s: Step)
    requires Phases(w.reader) && Enabled(w, s)
    ensures Phases(Do(w, s).reader)
  {
  }

  lemma {:induction false} RunsKeepInv(w: World, steps: seq<Step>, v: World)
    requires Inv(w) && Reaches(w, steps, v)
    ensures Inv(v)
    decreases |steps|
  {
    if steps != [] {
      StepKeepsWriterInv(w, steps[0]);
      StepKeepsReaderInv(w, steps[0]);
      RunsKeepInv(Do(w, steps[0]), steps[1..], v);
    }
  }

  /** Over every run of serialized writers that may stop anywhere and a reader interleaved with
      them: an accepted read saw, in all four databases, exactly the contents that one generation
      had at the single moment its receipt sets were found equal. */
  lemma AcceptedReadIsOneSnapshot(w: World, steps: seq<Step>, v: World)
    requires Initial(w) && Reaches(w, steps, v) && Accepted(v.reader)
    ensures exists g :: g in v.published && v.published[g].Keys == COMPONENTS && EqualReceipts(v.published[g])
              && forall c | c in COMPONENTS ::
                   && v.reader.before[c].id == g
                   && v.reader.rows[c] == v.published[g][c].rows
                   && v.reader.receipts[c] == v.published[g][c].receipts
  {
    RunsKeepInv(w, steps, v);
    var r := v.reader;
    var g := r.before[NumericalCorrectness].id;
    forall c | c in COMPONENTS
      ensures r.before[c].id == g && r.rows[c] == v.published[g][c].rows && r.receipts[c] == v.published[g][c].receipts
    {
      assert c in r.before && r.before[c].state == Complete && r.after[c].id == r.before[c].id;
    }
  }
}
