/** The flat rank payload of the 80gb-b200 plan (validation-tests/dltest/ingest.py): task groups, the overlap
    section that names every collective-layer pair from both sides, and why its counts pin it down. */
module FlatPayload {
  import opened Sets
  import opened Wrappers

  /** A JSON value inside a task: a number (finite or not), or anything else. */
  datatype Value = Number(value: real) | NotFinite | NotMetric

  datatype Entry = Metrics(values: map<string, Value>) | OtherJson

  datatype Kind = NnTask | FTask | CollTask

  datatype Stat = Mean | Stdev

  datatype Side = CollSide | LayerSide

  datatype Field = Field(side: Side, stat: Stat)

  datatype Pair = Pair(coll: string, layer: string)

  /** One raw overlap entry: outer task name and metric name. */
  datatype Raw = Raw(outer: string, metric: string)

  const COMPUTE_METRICS: set<string> := {"fp_cpu_time", "fp_gpu_time", "bp_cpu_time", "bp_gpu_time"}
  const COLLECTIVE_METRICS: set<string> := {"cpu_time", "gpu_time"}
  const F_METRICS: set<string> := COMPUTE_METRICS + {"norm_output", "weight"}
  const FLAT_COLLECTIVE_METRICS: set<string> := {"coll_cpu", "coll_gpu", "norm_output"}
  const NN_METRIC_SETS: set<set<string>> := {
    COMPUTE_METRICS + {"bias", "norm_output", "weight"},
    COMPUTE_METRICS + {"norm_output", "weight"},
    COMPUTE_METRICS + {"bias_hh_l0", "bias_ih_l0", "norm_output", "weight_hh_l0", "weight_ih_l0"},
    COMPUTE_METRICS + {"norm_output"}
  }
  const RESERVED: set<string> := {"PartitionKey", "test_plan", "overlap_tasks"}
  const FIELDS: set<Field> := {Field(CollSide, Mean), Field(CollSide, Stdev), Field(LayerSide, Mean), Field(LayerSide, Stdev)}

  function KindOf(name: string): Kind {
    if "f." <= name then FTask
    else if "allgather_" <= name || "allreduce_" <= name || "alltoall_" <= name || "reducescatter_" <= name then CollTask
    else NnTask
  }

  predicate AllNumbers(values: map<string, Value>) {
    values != map[] && forall k | k in values :: values[k] != NotMetric
  }

  predicate TaskFits(name: string, e: Entry) {
    && e.Metrics?
    && (match KindOf(name)
        case FTask => e.values.Keys == F_METRICS
        case CollTask => e.values.Keys == FLAT_COLLECTIVE_METRICS
        case NnTask => e.values.Keys in NN_METRIC_SETS)
    && AllNumbers(e.values)
  }

  /** The tasks of one kind in a payload, by name. */
  function NamesOf(payload: map<string, Entry>, kind: Kind): set<string> {
    set name | name in payload && name !in RESERVED && KindOf(name) == kind
  }

  predicate TasksFit(payload: map<string, Entry>) {
    forall name | name in payload && name !in RESERVED :: TaskFits(name, payload[name])
  }

  function MetricName(stat: Stat, inner: string): string {
    (if stat.Mean? then "mean_" else "stdev_") + inner
  }

  /** The metric pattern: a statistic, an underscore and a non-empty name on one line. */
  function Parse(metric: string): (r: Option<(Stat, string)>)
    ensures r.Some? ==> metric == MetricName(r.value.0, r.value.1)
  {
    if "mean_" <= metric && |metric| > 5 && '\n' !in metric[5..] then Some((Mean, metric[5..]))
    else if "stdev_" <= metric && |metric| > 6 && '\n' !in metric[6..] then Some((Stdev, metric[6..]))
    else None
  }

  /** A metric name is read back as it was written, or not at all. */
  lemma ParseOfName(stat: Stat, inner: string)
    ensures Parse(MetricName(stat, inner)).Some? ==> Parse(MetricName(stat, inner)).value == (stat, inner)
  {
    var m := MetricName(stat, inner);
    if stat.Mean? {
      assert m[5..] == inner;
    } else {
      assert m[0] == 's' && m[6..] == inner;
    }
  }

  /** Outer and inner names are of opposite kinds and every value is a number. */
  predicate Readable(nn: set<string>, coll: set<string>, outer: string, e: Entry) {
    && e.Metrics? && (outer in nn || outer in coll)
    && forall m | m in e.values :: MetricReadable(nn, coll, outer, m, e.values[m])
  }

  predicate MetricReadable(nn: set<string>, coll: set<string>, outer: string, m: string, v: Value) {
    Parse(m).Some? && v != NotMetric && Parse(m).value.1 in (if outer in nn then coll else nn)
  }

  function InnerNames(e: Entry): set<string>
    requires e.Metrics?
  {
    set m | m in e.values && Parse(m).Some? :: Parse(m).value.1
  }

  /** The pair and field that a raw entry measures. */
  function Target(nn: set<string>, r: Raw): (Pair, Field)
    requires Parse(r.metric).Some?
  {
    var (stat, inner) := Parse(r.metric).value;
    if r.outer in nn then (Pair(inner, r.outer), Field(CollSide, stat)) else (Pair(r.outer, inner), Field(LayerSide, stat))
  }

  /** The raw entry that a field of a pair comes from. */
  function Source(p: Pair, f: Field): Raw {
    if f.side.CollSide? then Raw(p.layer, MetricName(f.stat, p.coll)) else Raw(p.coll, MetricName(f.stat, p.layer))
  }

  function Product(coll: set<string>, layers: set<string>): set<Pair> {
    set c, l | c in coll && l in layers :: Pair(c, l)
  }

  /** A complete overlap section: eight layers and six collectives, every pair measured four times. */
  predicate FullProduct(nn: set<string>, coll: set<string>, overlap: map<string, Entry>) {
    var layers, colls := overlap.Keys * nn, overlap.Keys * coll;
    && (forall outer | outer in overlap :: Readable(nn, coll, outer, overlap[outer]))
    && |layers| == 8 && |colls| == 6
    && (forall l | l in layers :: InnerNames(overlap[l]) == colls)
    && (forall c | c in colls :: InnerNames(overlap[c]) == layers)
    && (forall l, c, stat | l in layers && c in colls ::
          MetricName(stat, c) in overlap[l].values && MetricName(stat, l) in overlap[c].values)
  }

  /** The payloads that the normalizer accepts. */
  predicate Acceptable(payload: map<string, Entry>, overlap: map<string, Entry>) {
    && TasksFit(payload)
    && |NamesOf(payload, NnTask)| == 57 && |NamesOf(payload, FTask)| == 38 && |NamesOf(payload, CollTask)| == 24
    && FullProduct(NamesOf(payload, NnTask), NamesOf(payload, CollTask), overlap)
  }

  function ByLayer(layers: set<string>, inner: map<string, set<string>>): set<Pair> {
    set l, c | l in layers && l in inner && c in inner[l] :: Pair(c, l)
  }

  function ByColl(colls: set<string>, inner: map<string, set<string>>): set<Pair> {
    set c, l | c in colls && c in inner && l in inner[c] :: Pair(c, l)
  }

  lemma {:induction false} LayerFiber(names: set<string>, l: string)
    ensures |set c | c in names :: Pair(c, l)| == |names|
    decreases names
  {
    if names != {} {
      var x :| x in names;
      LayerFiber(names - {x}, l);
      assert (set c | c in names :: Pair(c, l)) == (set c | c in names - {x} :: Pair(c, l)) + {Pair(x, l)};
    } else {
      assert (set c | c in names :: Pair(c, l)) == {};
    }
  }

  lemma {:induction false} CollFiber(names: set<string>, c: string)
    ensures |set l | l in names :: Pair(c, l)| == |names|
    decreases names
  {
    if names != {} {
      var x :| x in names;
      CollFiber(names - {x}, c);
      assert (set l | l in names :: Pair(c, l)) == (set l | l in names - {x} :: Pair(c, l)) + {Pair(c, x)};
    } else {
      assert (set l | l in names :: Pair(c, l)) == {};
    }
  }

  lemma {:induction false} ByLayerCard(layers: set<string>, inner: map<string, set<string>>, n: nat)
    requires forall l | l in layers :: l in inner && |inner[l]| == n
    ensures |ByLayer(layers, inner)| == |layers| * n
    decreases layers
  {
    if layers != {} {
      var x :| x in layers;
      ByLayerCard(layers - {x}, inner, n);
      LayerFiber(inner[x], x);
      var fiber := set c | c in inner[x] :: Pair(c, x);
      assert ByLayer(layers, inner) == ByLayer(layers - {x}, inner) + fiber;
      assert ByLayer(layers - {x}, inner) !! fiber;
    } else {
      assert ByLayer(layers, inner) == {};
    }
  }

  lemma {:induction false} ByCollCard(colls: set<string>, inner: map<string, set<string>>, n: nat)
    requires forall c | c in colls :: c in inner && |inner[c]| == n
    ensures |ByColl(colls, inner)| == |colls| * n
    decreases colls
  {
    if colls != {} {
      var x :| x in colls;
      ByCollCard(colls - {x}, inner, n);
      CollFiber(inner[x], x);
      var fiber := set l | l in inner[x] :: Pair(x, l);
      assert ByColl(colls, inner) == ByColl(colls - {x}, inner) + fiber;
      assert ByColl(colls - {x}, inner) !! fiber;
    } else {
      assert ByColl(colls, inner) == {};
    }
  }

  lemma ProductCard(colls: set<string>, layers: set<string>)
    ensures |Product(colls, layers)| == |colls| * |layers|
  {
    var inner := map c | c in colls :: layers;
    ByCollCard(colls, inner, |layers|);
    assert Product(colls, layers) == ByColl(colls, inner);
  }

  /** The pigeonhole argument: eight layers that name six collectives each and six collectives that name eight
      layers each give only 48 pairs together when both name the same full product. */
  lemma CountsForceProduct(layers: set<string>, colls: set<string>, inner: map<string, set<string>>, pairs: set<Pair>)
    requires |layers| == 8 && |colls| == 6 && |pairs| == 48
    requires forall l | l in layers :: l in inner && |inner[l]| == 6
    requires forall c | c in colls :: c in inner && |inner[c]| == 8
    requires ByLayer(layers, inner) <= pairs && ByColl(colls, inner) <= pairs
    ensures pairs == Product(colls, layers)
    ensures forall l | l in layers :: inner[l] == colls
    ensures forall c | c in colls :: inner[c] == layers
  {
    ByLayerCard(layers, inner, 6);
    ByCollCard(colls, inner, 8);
    SubsetOfSameSize(ByLayer(layers, inner), pairs);
    SubsetOfSameSize(ByColl(colls, inner), pairs);
    ProductCard(colls, layers);
    assert pairs <= Product(colls, layers) by {
      forall p | p in pairs ensures p in Product(colls, layers) {
        assert p in ByLayer(layers, inner) && p in ByColl(colls, inner);
      }
    }
    SubsetOfSameSize(pairs, Product(colls, layers));
    forall l | l in layers ensures inner[l] == colls {
      forall c ensures c in inner[l] <==> c in colls {
        assert Pair(c, l) in ByLayer(layers, inner) <==> c in inner[l];
        assert Pair(c, l) in Product(colls, layers) <==> c in colls;
      }
    }
    forall c | c in colls ensures inner[c] == layers {
      forall l ensures l in inner[c] <==> l in layers {
        assert Pair(c, l) in ByColl(colls, inner) <==> l in inner[c];
        assert Pair(c, l) in Product(colls, layers) <==> l in layers;
      }
    }
  }
}
