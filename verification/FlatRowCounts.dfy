/** What accepted flat ranks contain: 192 raw overlap entries each, and fixed row counts per run
    (validation-tests/dltest/ingest.py). */
module FlatRowCounts {
  import opened FlatPayload
  import opened FlatRegrouping
  import opened FlatNormalizer

  /** The measured fields of a set of pairs. */
  function Measurements(pairs: set<Pair>): set<(Pair, Field)> {
    set p, f | p in pairs && f in FIELDS :: (p, f)
  }

  lemma {:induction false} MeasurementCard(pairs: set<Pair>)
    ensures |Measurements(pairs)| == 4 * |pairs|
    decreases pairs
  {
    if pairs == {} {
      assert Measurements(pairs) == {};
    } else {
      var p :| p in pairs;
      MeasurementCard(pairs - {p});
      var four := {(p, Field(CollSide, Mean)), (p, Field(CollSide, Stdev)), (p, Field(LayerSide, Mean)), (p, Field(LayerSide, Stdev))};
      assert |four| == 4;
      assert Measurements(pairs) == Measurements(pairs - {p}) + four;
    }
  }

  lemma {:induction false} SourceCard(nn: set<string>, s: set<(Pair, Field)>)
    requires forall x | x in s :: Oriented(nn, x.0, x.1) && Parse(Source(x.0, x.1).metric).Some?
    ensures |set x | x in s :: Source(x.0, x.1)| == |s|
    decreases s
  {
    hide Source, Target, Parse, Oriented;
    var image := set x | x in s :: Source(x.0, x.1);
    if s == {} {
      assert image == {};
    } else {
      var y :| y in s;
      var rest := set x | x in s - {y} :: Source(x.0, x.1);
      SourceCard(nn, s - {y});
      forall x | x in s - {y} ensures Source(x.0, x.1) != Source(y.0, y.1) {
        TargetOfSource(nn, x.0, x.1);
        TargetOfSource(nn, y.0, y.1);
      }
      assert image == rest + {Source(y.0, y.1)};
    }
  }

  lemma RawMeasures(nn: set<string>, coll: set<string>, overlap: map<string, Entry>, r: Raw)
    requires nn !! coll && FullProduct(nn, coll, overlap) && r in RawOf(overlap)
    ensures Parse(r.metric).Some?
    ensures Source(Target(nn, r).0, Target(nn, r).1) == r
    ensures Target(nn, r) in Measurements(Product(overlap.Keys * coll, overlap.Keys * nn))
  {
    var o := r.outer;
    assert Readable(nn, coll, o, overlap[o]);
    assert MetricReadable(nn, coll, o, r.metric, overlap[o].values[r.metric]);
    assert Parse(r.metric).value.1 in InnerNames(overlap[o]);
    hide Parse, FullProduct, RawOf, Readable, MetricReadable;
    ProductParts(nn, coll, overlap);
    SourceOfTarget(nn, r);
    assert o in Inner(overlap) && Inner(overlap)[o] == InnerNames(overlap[o]);
    FieldKnown(Target(nn, r).1);
    assert (Target(nn, r).0, Target(nn, r).1) == Target(nn, r);
  }

  /** The regrouping is a bijection: every raw entry measures one field of one pair, every field of every pair
      comes from one raw entry, and there are 192 of them. */
  lemma RegroupingIsBijective(nn: set<string>, coll: set<string>, overlap: map<string, Entry>)
    requires nn !! coll && FullProduct(nn, coll, overlap)
    ensures var all := Measurements(Product(overlap.Keys * coll, overlap.Keys * nn));
      && (forall r | r in RawOf(overlap) :: Parse(r.metric).Some? && Target(nn, r) in all && Source(Target(nn, r).0, Target(nn, r).1) == r)
      && (forall p, f | (p, f) in all :: Source(p, f) in RawOf(overlap) && Parse(Source(p, f).metric).Some? && Target(nn, Source(p, f)) == (p, f))
    ensures |RawOf(overlap)| == 192
  {
    hide Source, Target, Parse, FullProduct, RawOf, Product, Holds;
    var pairs := Product(overlap.Keys * coll, overlap.Keys * nn);
    forall r | r in RawOf(overlap)
      ensures Parse(r.metric).Some? && Target(nn, r) in Measurements(pairs) && Source(Target(nn, r).0, Target(nn, r).1) == r
    {
      RawMeasures(nn, coll, overlap, r);
    }
    forall p, f | (p, f) in Measurements(pairs)
      ensures Source(p, f) in RawOf(overlap) && Parse(Source(p, f).metric).Some? && Oriented(nn, p, f) && Target(nn, Source(p, f)) == (p, f)
    {
      InProduct(overlap.Keys * coll, overlap.Keys * nn, p);
      ProductField(nn, coll, overlap, p, f);
      RawOfHolds(overlap, Source(p, f));
      RawMeasures(nn, coll, overlap, Source(p, f));
      TargetOfSource(nn, p, f);
    }
    SourceCard(nn, Measurements(pairs));
    assert RawOf(overlap) == set x | x in Measurements(pairs) :: Source(x.0, x.1);
    MeasurementCard(pairs);
    ProductCard(overlap.Keys * coll, overlap.Keys * nn);
    ProductParts(nn, coll, overlap);
  }

  const METADATA_FIELDS: set<string> := {"task_name", "status", "error_msg", "coll_name", "layer_name"}

  datatype Category = Numerical | Compute | Collective

  predicate Wanted(category: Category, metric: string) {
    match category
    case Numerical => metric !in METADATA_FIELDS + COMPUTE_METRICS + COLLECTIVE_METRICS
    case Compute => metric in COMPUTE_METRICS
    case Collective => metric in COLLECTIVE_METRICS
  }

  /** standard_rows over a group's tasks, as (task, metric) pairs: names are dictionary keys, so rows differ. */
  function Selected(tasks: Tasks, category: Category): set<(string, string)> {
    set t, m | t in tasks && m in tasks[t] && tasks[t][m] != NotMetric && Wanted(category, m) :: (t, m)
  }

  datatype RowCounts = RowCounts(numerical: nat, compute: nat, collective: nat, overlap: nat)

  /** classify_rank_files, counted, for one rank. */
  function RankRows(n: Normalized): RowCounts {
    RowCounts(|Selected(n.nn, Numerical)| + |Selected(n.f, Numerical)| + |Selected(n.coll, Numerical)|,
              |Selected(n.nn, Compute)| + |Selected(n.f, Compute)|,
              |Selected(n.coll, Collective)|,
              |Measurements(n.overlap.Keys)|)
  }

  function RunRows(ranks: seq<Normalized>): RowCounts {
    if ranks == [] then RowCounts(0, 0, 0, 0)
    else
      var rest, rank := RunRows(ranks[1..]), RankRows(ranks[0]);
      RowCounts(rest.numerical + rank.numerical, rest.compute + rank.compute, rest.collective + rank.collective, rest.overlap + rank.overlap)
  }

  const FLAT_EXPECTED_ROW_COUNTS := RowCounts(2168, 3040, 384, 1536)

  ghost predicate AcceptedRank(n: Normalized) {
    exists payload, overlap :: Acceptable(payload, overlap) && NormalizedFrom(payload, overlap, n)
  }

  function Crossed(names: set<string>, metrics: set<string>): set<(string, string)> {
    set t, m | t in names && m in metrics :: (t, m)
  }

  lemma {:induction false} TaggedCard(t: string, names: set<string>)
    ensures |set m | m in names :: (t, m)| == |names|
    decreases names
  {
    if names == {} {
      assert (set m | m in names :: (t, m)) == {};
    } else {
      var x :| x in names;
      TaggedCard(t, names - {x});
      assert (set m | m in names :: (t, m)) == (set m | m in names - {x} :: (t, m)) + {(t, x)};
    }
  }

  lemma {:induction false} CrossedCard(names: set<string>, metrics: set<string>)
    ensures |Crossed(names, metrics)| == |names| * |metrics|
    decreases names
  {
    if names == {} {
      assert Crossed(names, metrics) == {};
    } else {
      var t :| t in names;
      CrossedCard(names - {t}, metrics);
      TaggedCard(t, metrics);
      CrossedSplits(names, metrics, t);
      hide Crossed;
      assert |Crossed(names, metrics)| == |Crossed(names - {t}, metrics)| + |metrics|;
    }
  }

  lemma CrossedSplits(names: set<string>, metrics: set<string>, t: string)
    requires t in names
    ensures var mine := set m | m in metrics :: (t, m);
      Crossed(names, metrics) == Crossed(names - {t}, metrics) + mine && Crossed(names - {t}, metrics) !! mine
  {
  }

  /** When every task has the same wanted metrics, the rows are their product with the tasks. */
  lemma UniformRows(tasks: Tasks, category: Category, metrics: set<string>)
    requires forall t, m | t in tasks :: m in metrics <==> m in tasks[t] && tasks[t][m] != NotMetric && Wanted(category, m)
    ensures |Selected(tasks, category)| == |tasks| * |metrics|
  {
    hide Wanted;
    assert Selected(tasks, category) == Crossed(tasks.Keys, metrics);
    CrossedCard(tasks.Keys, metrics);
  }

  lemma ComputeMetricsOf(name: string, e: Entry, m: string)
    requires TaskFits(name, e) && KindOf(name) != CollTask
    ensures m in COMPUTE_METRICS <==> m in e.values && e.values[m] != NotMetric && m in COMPUTE_METRICS
  {
  }

  lemma CollectiveMetricsOf(name: string, e: Entry, m: string)
    requires TaskFits(name, e) && KindOf(name) == CollTask
    ensures var v := TaskMetrics(name, e); m in COLLECTIVE_METRICS <==> m in v && v[m] != NotMetric && m in COLLECTIVE_METRICS
  {
  }

  lemma SetSizes()
    ensures |COMPUTE_METRICS| == 4 && |COLLECTIVE_METRICS| == 2
  {
  }

  /** One accepted rank: 380 compute, 48 collective and 192 overlap rows. */
  lemma AcceptedRankRows(payload: map<string, Entry>, overlap: map<string, Entry>, n: Normalized)
    requires Acceptable(payload, overlap) && NormalizedFrom(payload, overlap, n)
    ensures RankRows(n).compute == 380 && RankRows(n).collective == 48 && RankRows(n).overlap == 192
  {
    hide KindOf, TaskFits, TaskMetrics, FullProduct, Product, COMPUTE_METRICS, COLLECTIVE_METRICS;
    GroupNames(payload, n.nn, n.f, n.coll);
    SetSizes();
    forall t, m | t in n.nn ensures m in COMPUTE_METRICS <==> m in n.nn[t] && n.nn[t][m] != NotMetric && Wanted(Compute, m) {
      ComputeMetricsOf(t, payload[t], m);
      NotCollective(t, payload[t]);
    }
    UniformRows(n.nn, Compute, COMPUTE_METRICS);
    forall t, m | t in n.f ensures m in COMPUTE_METRICS <==> m in n.f[t] && n.f[t][m] != NotMetric && Wanted(Compute, m) {
      ComputeMetricsOf(t, payload[t], m);
      NotCollective(t, payload[t]);
    }
    UniformRows(n.f, Compute, COMPUTE_METRICS);
    forall t, m | t in n.coll ensures m in COLLECTIVE_METRICS <==> m in n.coll[t] && n.coll[t][m] != NotMetric && Wanted(Collective, m) {
      CollectiveMetricsOf(t, payload[t], m);
    }
    UniformRows(n.coll, Collective, COLLECTIVE_METRICS);
    MeasurementCard(n.overlap.Keys);
    ProductParts(NamesOf(payload, NnTask), NamesOf(payload, CollTask), overlap);
    ProductCard(overlap.Keys * NamesOf(payload, CollTask), overlap.Keys * NamesOf(payload, NnTask));
  }

  lemma NotCollective(name: string, e: Entry)
    requires TaskFits(name, e)
    ensures KindOf(name) != CollTask ==> TaskMetrics(name, e) == e.values
  {
  }

  lemma {:induction false} AcceptedRunRows(ranks: seq<Normalized>)
    requires forall n | n in ranks :: AcceptedRank(n)
    ensures var r := RunRows(ranks); r.compute == 380 * |ranks| && r.collective == 48 * |ranks| && r.overlap == 192 * |ranks|
  {
    if ranks != [] {
      hide RankRows, Acceptable, NormalizedFrom;
      assert ranks[0] in ranks && AcceptedRank(ranks[0]);
      var payload, overlap :| Acceptable(payload, overlap) && NormalizedFrom(payload, overlap, ranks[0]);
      AcceptedRankRows(payload, overlap, ranks[0]);
      AcceptedRunRows(ranks[1..]);
    }
  }

  /** Of the four expected row counts of a flat run of eight accepted ranks only the numerical one can fail. */
  lemma OnlyNumericalCanDiffer(ranks: seq<Normalized>)
    requires |ranks| == 8 && forall n | n in ranks :: AcceptedRank(n)
    ensures RunRows(ranks).compute == 3040 && RunRows(ranks).collective == 384 && RunRows(ranks).overlap == 1536
    ensures RunRows(ranks) == FLAT_EXPECTED_ROW_COUNTS <==> RunRows(ranks).numerical == 2168
  {
    AcceptedRunRows(ranks);
  }
}
