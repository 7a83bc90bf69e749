/** Regrouping the raw overlap entries by pair, and the two counters over their outer names. */
module FlatRegrouping {
  import opened FlatPayload

  type PairMetrics = map<Pair, map<Field, Value>>

  function RawOf(overlap: map<string, Entry>): set<Raw> {
    set o, m | o in overlap && overlap[o].Metrics? && m in overlap[o].values :: Raw(o, m)
  }

  predicate Holds(overlap: map<string, Entry>, r: Raw) {
    r.outer in overlap && overlap[r.outer].Metrics? && r.metric in overlap[r.outer].values
  }

  function RawValue(overlap: map<string, Entry>, r: Raw): Value
    requires Holds(overlap, r)
  {
    overlap[r.outer].values[r.metric]
  }

  /** A field's side agrees with the kind of the outer name it comes from. */
  predicate Oriented(nn: set<string>, p: Pair, f: Field) {
    if f.side.CollSide? then p.layer in nn else p.coll !in nn
  }

  predicate Present(pairs: PairMetrics, p: Pair, f: Field) {
    p in pairs && f in pairs[p]
  }

  /** The pair metrics hold exactly the processed raw entries, each in its own place. */
  ghost predicate Regrouped(nn: set<string>, overlap: map<string, Entry>, done: set<Raw>, pairs: PairMetrics) {
    && (forall r | r in done :: Holds(overlap, r) && Parse(r.metric).Some?)
    && (forall p, f :: Present(pairs, p, f) <==> Source(p, f) in done && Oriented(nn, p, f))
    && (forall p | p in pairs :: pairs[p] != map[])
    && (forall p, f | Present(pairs, p, f) :: Source(p, f) in done && pairs[p][f] == RawValue(overlap, Source(p, f)))
  }

  function Place(pairs: PairMetrics, p: Pair, f: Field, v: Value): PairMetrics {
    pairs[p := (if p in pairs then pairs[p] else map[])[f := v]]
  }

  lemma SourceOfTarget(nn: set<string>, r: Raw)
    requires Parse(r.metric).Some?
    ensures var (p, f) := Target(nn, r); Source(p, f) == r && Oriented(nn, p, f)
  {
  }

  lemma TargetOfSource(nn: set<string>, p: Pair, f: Field)
    requires Oriented(nn, p, f) && Parse(Source(p, f).metric).Some?
    ensures Target(nn, Source(p, f)) == (p, f)
  {
    hide Parse, MetricName;
    ParseOfName(f.stat, if f.side.CollSide? then p.coll else p.layer);
  }

  /** A raw entry that was not processed yet finds its field free: the duplicate check never fires. */
  lemma PlaceIsFree(nn: set<string>, overlap: map<string, Entry>, done: set<Raw>, pairs: PairMetrics, r: Raw)
    requires Regrouped(nn, overlap, done, pairs) && r !in done && Holds(overlap, r) && Parse(r.metric).Some?
    ensures var (p, f) := Target(nn, r); !Present(pairs, p, f)
  {
  }

  lemma PlaceRegroups(nn: set<string>, overlap: map<string, Entry>, done: set<Raw>, pairs: PairMetrics, r: Raw)
    requires Regrouped(nn, overlap, done, pairs) && r !in done && Holds(overlap, r) && Parse(r.metric).Some?
    ensures var (p, f) := Target(nn, r); Regrouped(nn, overlap, done + {r}, Place(pairs, p, f, RawValue(overlap, r)))
  {
    hide Parse, MetricName, Source, Target, Holds, Oriented;
    SourceOfTarget(nn, r);
    var (p, f) := Target(nn, r);
    var next := Place(pairs, p, f, RawValue(overlap, r));
    forall q, g ensures Present(next, q, g) <==> Source(q, g) in done + {r} && Oriented(nn, q, g) {
      if Source(q, g) == r && Oriented(nn, q, g) {
        TargetOfSource(nn, q, g);
      }
      assert Present(next, q, g) <==> Present(pairs, q, g) || (q == p && g == f);
    }
  }

  /** A counter of the inner-name counts of the given outer names. */
  ghost predicate Counts(counter: map<nat, nat>, outers: set<string>, inner: map<string, set<string>>)
    requires outers <= inner.Keys
  {
    forall n: nat :: Count(counter, n) == |OfSize(outers, inner, n)| && (n in counter ==> counter[n] > 0)
  }

  function Count(counter: map<nat, nat>, n: nat): nat {
    if n in counter then counter[n] else 0
  }

  /** The outer names with k inner names each. */
  function OfSize(outers: set<string>, inner: map<string, set<string>>, k: nat): set<string>
    requires outers <= inner.Keys
  {
    set o | o in outers && |inner[o]| == k
  }

  lemma OneMore(outers: set<string>, inner: map<string, set<string>>, outer: string, k: nat)
    requires outers <= inner.Keys && outer in inner && outer !in outers
    ensures |OfSize(outers + {outer}, inner, k)| == |OfSize(outers, inner, k)| + (if |inner[outer]| == k then 1 else 0)
  {
    if |inner[outer]| == k {
      assert OfSize(outers + {outer}, inner, k) == OfSize(outers, inner, k) + {outer};
    } else {
      assert OfSize(outers + {outer}, inner, k) == OfSize(outers, inner, k);
    }
  }

  lemma CountOne(counter: map<nat, nat>, outers: set<string>, inner: map<string, set<string>>, outer: string)
    requires outers <= inner.Keys && outer in inner && outer !in outers && Counts(counter, outers, inner)
    ensures var n := |inner[outer]|; Counts(counter[n := Count(counter, n) + 1], outers + {outer}, inner)
  {
    var n := |inner[outer]|;
    var next := counter[n := Count(counter, n) + 1];
    hide OfSize;
    forall k: nat ensures Count(next, k) == |OfSize(outers + {outer}, inner, k)| && (k in next ==> next[k] > 0) {
      assert Count(counter, k) == |OfSize(outers, inner, k)|;
      OneMore(outers, inner, outer, k);
    }
  }

  /** A counter with the single entry k: m says m outer names with k inner names each, and no others. */
  lemma SingleCount(counter: map<nat, nat>, outers: set<string>, inner: map<string, set<string>>, k: nat, m: nat)
    requires outers <= inner.Keys && m > 0 && Counts(counter, outers, inner)
    ensures counter == map[k := m] <==> |outers| == m && (forall o | o in outers :: |inner[o]| == k)
  {
    if counter == map[k := m] {
      forall o | o in outers ensures |inner[o]| == k {
        var n := |inner[o]|;
        var same := OfSize(outers, inner, n);
        assert o in same;
        assert |same| > 0 && Count(counter, n) == |same|;
      }
      assert OfSize(outers, inner, k) == outers;
      assert Count(counter, k) == m;
    }
    if |outers| == m && (forall o | o in outers :: |inner[o]| == k) {
      assert OfSize(outers, inner, k) == outers;
      assert Count(counter, k) == m;
      forall n | n in counter ensures n == k {
        var same := OfSize(outers, inner, n);
        assert |same| == Count(counter, n) && same != {};
        var o :| o in same;
      }
    }
  }

  function Inner(overlap: map<string, Entry>): map<string, set<string>> {
    map o | o in overlap && overlap[o].Metrics? :: InnerNames(overlap[o])
  }

  ghost predicate AllReadable(nn: set<string>, coll: set<string>, overlap: map<string, Entry>) {
    forall o | o in overlap :: Readable(nn, coll, o, overlap[o])
  }

  /** The checks after the loop over the overlap section. */
  ghost predicate CheckedCounts(layers: set<string>, colls: set<string>, inner: map<string, set<string>>, pairs: PairMetrics)
    requires layers <= inner.Keys && colls <= inner.Keys
  {
    && |layers| == 8 && (forall l | l in layers :: |inner[l]| == 6)
    && |colls| == 6 && (forall c | c in colls :: |inner[c]| == 8)
    && |pairs| == 48 && (forall p | p in pairs :: pairs[p].Keys == FIELDS)
  }

  lemma RawIsPresent(nn: set<string>, overlap: map<string, Entry>, pairs: PairMetrics, o: string, m: string)
    requires Regrouped(nn, overlap, RawOf(overlap), pairs) && Holds(overlap, Raw(o, m)) && Parse(m).Some?
    ensures Target(nn, Raw(o, m)).0 in pairs
  {
    hide Parse, MetricName, Source, Target, RawOf;
    assert Raw(o, m) in RawOf(overlap) by {
      RawOfHolds(overlap, Raw(o, m));
    }
    SourceOfTarget(nn, Raw(o, m));
    assert Present(pairs, Target(nn, Raw(o, m)).0, Target(nn, Raw(o, m)).1);
  }

  lemma RawOfHolds(overlap: map<string, Entry>, r: Raw)
    ensures r in RawOf(overlap) <==> Holds(overlap, r)
  {
  }

  /** Every pair named on either side is recorded. */
  lemma NamedPairs(nn: set<string>, coll: set<string>, overlap: map<string, Entry>, pairs: PairMetrics)
    requires nn !! coll && AllReadable(nn, coll, overlap) && Regrouped(nn, overlap, RawOf(overlap), pairs)
    ensures ByLayer(overlap.Keys * nn, Inner(overlap)) <= pairs.Keys
    ensures ByColl(overlap.Keys * coll, Inner(overlap)) <= pairs.Keys
  {
    hide Parse, MetricName, Source, RawOf, Regrouped;
    forall p | p in ByLayer(overlap.Keys * nn, Inner(overlap)) ensures p in pairs {
      var m :| m in overlap[p.layer].values && Parse(m).Some? && Parse(m).value.1 == p.coll;
      RawIsPresent(nn, overlap, pairs, p.layer, m);
    }
    forall p | p in ByColl(overlap.Keys * coll, Inner(overlap)) ensures p in pairs {
      var m :| m in overlap[p.coll].values && Parse(m).Some? && Parse(m).value.1 == p.layer;
      RawIsPresent(nn, overlap, pairs, p.coll, m);
    }
  }

  /** Every recorded field is measured by an outer name of the overlap section. */
  lemma FieldIsMeasured(nn: set<string>, coll: set<string>, overlap: map<string, Entry>, pairs: PairMetrics, p: Pair, f: Field)
    requires nn !! coll && AllReadable(nn, coll, overlap) && Regrouped(nn, overlap, RawOf(overlap), pairs) && Present(pairs, p, f)
    ensures Holds(overlap, Source(p, f))
    ensures f.side.CollSide? ==> p.layer in overlap.Keys * nn && p.coll in InnerNames(overlap[p.layer])
    ensures f.side.LayerSide? ==> p.coll in overlap.Keys * coll && p.layer in InnerNames(overlap[p.coll])
  {
    hide Parse, MetricName, RawOf;
    var r := Source(p, f);
    assert Holds(overlap, r) && Parse(r.metric).Some?;
    assert Readable(nn, coll, r.outer, overlap[r.outer]);
    ParseOfName(f.stat, if f.side.CollSide? then p.coll else p.layer);
  }

  lemma ProductParts(nn: set<string>, coll: set<string>, overlap: map<string, Entry>)
    requires FullProduct(nn, coll, overlap)
    ensures AllReadable(nn, coll, overlap) && |overlap.Keys * nn| == 8 && |overlap.Keys * coll| == 6
    ensures forall l | l in overlap.Keys * nn :: l in Inner(overlap) && Inner(overlap)[l] == overlap.Keys * coll
    ensures forall c | c in overlap.Keys * coll :: c in Inner(overlap) && Inner(overlap)[c] == overlap.Keys * nn
  {
    hide InnerNames, MetricReadable, MetricName;
  }

  lemma ProductFromParts(nn: set<string>, coll: set<string>, overlap: map<string, Entry>)
    requires AllReadable(nn, coll, overlap) && |overlap.Keys * nn| == 8 && |overlap.Keys * coll| == 6
    requires forall l | l in overlap.Keys * nn :: Inner(overlap)[l] == overlap.Keys * coll
    requires forall c | c in overlap.Keys * coll :: Inner(overlap)[c] == overlap.Keys * nn
    requires forall l, c, stat | l in overlap.Keys * nn && c in overlap.Keys * coll ::
      Holds(overlap, Raw(l, MetricName(stat, c))) && Holds(overlap, Raw(c, MetricName(stat, l)))
    ensures FullProduct(nn, coll, overlap)
  {
    hide InnerNames, MetricReadable, MetricName;
    forall l, c, stat | l in overlap.Keys * nn && c in overlap.Keys * coll
      ensures MetricName(stat, c) in overlap[l].values && MetricName(stat, l) in overlap[c].values
    {
      assert Holds(overlap, Raw(l, MetricName(stat, c))) && Holds(overlap, Raw(c, MetricName(stat, l)));
    }
  }

  lemma ProductField(nn: set<string>, coll: set<string>, overlap: map<string, Entry>, p: Pair, f: Field)
    requires FullProduct(nn, coll, overlap) && nn !! coll && p.layer in overlap.Keys * nn && p.coll in overlap.Keys * coll
    ensures Holds(overlap, Source(p, f)) && Oriented(nn, p, f)
  {
    hide InnerNames, MetricReadable, MetricName;
    assert MetricName(f.stat, p.coll) in overlap[p.layer].values && MetricName(f.stat, p.layer) in overlap[p.coll].values;
  }

  lemma InProduct(colls: set<string>, layers: set<string>, p: Pair)
    ensures p in Product(colls, layers) <==> p.coll in colls && p.layer in layers
  {
  }

  lemma FieldKnown(f: Field)
    ensures f in FIELDS
  {
    match f
    case Field(CollSide, Mean) =>
    case Field(CollSide, Stdev) =>
    case Field(LayerSide, Mean) =>
    case Field(LayerSide, Stdev) =>
  }

  /** The converse: what a full product makes of the recorded pairs. */
  lemma ProductIsRecorded(nn: set<string>, coll: set<string>, overlap: map<string, Entry>, pairs: PairMetrics)
    requires nn !! coll && FullProduct(nn, coll, overlap) && Regrouped(nn, overlap, RawOf(overlap), pairs)
    ensures pairs.Keys == Product(overlap.Keys * coll, overlap.Keys * nn)
    ensures forall p | p in pairs :: pairs[p].Keys == FIELDS
  {
    hide FullProduct, Regrouped, Source, AllReadable, Inner, Product, FIELDS;
    ProductParts(nn, coll, overlap);
    forall p ensures p in pairs ==> p in Product(overlap.Keys * coll, overlap.Keys * nn) {
      InProduct(overlap.Keys * coll, overlap.Keys * nn, p);
      if p in pairs {
        RecordedLiesInProduct(nn, coll, overlap, pairs, p);
      }
    }
    forall p, f | p in Product(overlap.Keys * coll, overlap.Keys * nn) ensures Present(pairs, p, f) && f in FIELDS {
      InProduct(overlap.Keys * coll, overlap.Keys * nn, p);
      ProductField(nn, coll, overlap, p, f);
      HeldIsPresent(nn, overlap, pairs, p, f);
      FieldKnown(f);
    }
    forall p ensures p in Product(overlap.Keys * coll, overlap.Keys * nn) ==> p in pairs {
      assert p in Product(overlap.Keys * coll, overlap.Keys * nn) ==> Present(pairs, p, Field(CollSide, Mean));
    }
  }

  lemma HeldIsPresent(nn: set<string>, overlap: map<string, Entry>, pairs: PairMetrics, p: Pair, f: Field)
    requires Regrouped(nn, overlap, RawOf(overlap), pairs) && Holds(overlap, Source(p, f)) && Oriented(nn, p, f)
    ensures Present(pairs, p, f)
  {
  }

  lemma RecordedLiesInProduct(nn: set<string>, coll: set<string>, overlap: map<string, Entry>, pairs: PairMetrics, p: Pair)
    requires nn !! coll && AllReadable(nn, coll, overlap) && Regrouped(nn, overlap, RawOf(overlap), pairs) && p in pairs
    requires forall l | l in overlap.Keys * nn :: l in Inner(overlap) && Inner(overlap)[l] == overlap.Keys * coll
    requires forall c | c in overlap.Keys * coll :: c in Inner(overlap) && Inner(overlap)[c] == overlap.Keys * nn
    ensures p.coll in overlap.Keys * coll && p.layer in overlap.Keys * nn
  {
    hide RawOf, Source, Parse, AllReadable, InnerNames;
    assert pairs[p] != map[];
    var f :| f in pairs[p];
    FieldIsMeasured(nn, coll, overlap, pairs, p, f);
    if f.side.CollSide? {
      assert Inner(overlap)[p.layer] == InnerNames(overlap[p.layer]);
    } else {
      assert Inner(overlap)[p.coll] == InnerNames(overlap[p.coll]);
    }
  }

  lemma InnerOfReadable(nn: set<string>, coll: set<string>, overlap: map<string, Entry>)
    requires AllReadable(nn, coll, overlap)
    ensures Inner(overlap).Keys == overlap.Keys
  {
  }

  lemma CountsGiveProduct(nn: set<string>, coll: set<string>, overlap: map<string, Entry>, pairs: PairMetrics)
    requires nn !! coll && AllReadable(nn, coll, overlap) && Regrouped(nn, overlap, RawOf(overlap), pairs)
    requires Inner(overlap).Keys == overlap.Keys && CheckedCounts(overlap.Keys * nn, overlap.Keys * coll, Inner(overlap), pairs)
    ensures FullProduct(nn, coll, overlap)
  {
    hide Regrouped, MetricName, FullProduct, AllReadable, ByLayer, ByColl, Product, Source, Holds, Inner;
    NamedPairs(nn, coll, overlap, pairs);
    CountsForceProduct(overlap.Keys * nn, overlap.Keys * coll, Inner(overlap), pairs.Keys);
    forall l, c, stat | l in overlap.Keys * nn && c in overlap.Keys * coll
      ensures Holds(overlap, Raw(l, MetricName(stat, c))) && Holds(overlap, Raw(c, MetricName(stat, l)))
    {
      InProduct(overlap.Keys * coll, overlap.Keys * nn, Pair(c, l));
      MeasuredBothWays(nn, coll, overlap, pairs, Pair(c, l), stat);
    }
    ProductFromParts(nn, coll, overlap);
  }

  lemma ProductGivesCounts(nn: set<string>, coll: set<string>, overlap: map<string, Entry>, pairs: PairMetrics)
    requires nn !! coll && FullProduct(nn, coll, overlap) && Regrouped(nn, overlap, RawOf(overlap), pairs)
    requires Inner(overlap).Keys == overlap.Keys
    ensures CheckedCounts(overlap.Keys * nn, overlap.Keys * coll, Inner(overlap), pairs)
    ensures pairs.Keys == Product(overlap.Keys * coll, overlap.Keys * nn)
  {
    hide Regrouped, FullProduct, AllReadable, Product, Inner;
    ProductParts(nn, coll, overlap);
    ProductIsRecorded(nn, coll, overlap, pairs);
    ProductCard(overlap.Keys * coll, overlap.Keys * nn);
  }

  /** The normalizer's counts accept exactly the full products. */
  lemma CountsMeanProduct(nn: set<string>, coll: set<string>, overlap: map<string, Entry>, pairs: PairMetrics)
    requires nn !! coll && AllReadable(nn, coll, overlap) && Regrouped(nn, overlap, RawOf(overlap), pairs)
    ensures Inner(overlap).Keys == overlap.Keys
    ensures CheckedCounts(overlap.Keys * nn, overlap.Keys * coll, Inner(overlap), pairs) <==> FullProduct(nn, coll, overlap)
    ensures FullProduct(nn, coll, overlap) ==> pairs.Keys == Product(overlap.Keys * coll, overlap.Keys * nn)
  {
    hide Regrouped, FullProduct, AllReadable, Product, Inner, CheckedCounts;
    InnerOfReadable(nn, coll, overlap);
    if CheckedCounts(overlap.Keys * nn, overlap.Keys * coll, Inner(overlap), pairs) {
      CountsGiveProduct(nn, coll, overlap, pairs);
    }
    if FullProduct(nn, coll, overlap) {
      ProductGivesCounts(nn, coll, overlap, pairs);
    }
  }

  lemma MeasuredBothWays(nn: set<string>, coll: set<string>, overlap: map<string, Entry>, pairs: PairMetrics, p: Pair, stat: Stat)
    requires nn !! coll && AllReadable(nn, coll, overlap) && Regrouped(nn, overlap, RawOf(overlap), pairs)
    requires p in pairs && pairs[p].Keys == FIELDS
    ensures Holds(overlap, Raw(p.layer, MetricName(stat, p.coll))) && Holds(overlap, Raw(p.coll, MetricName(stat, p.layer)))
  {
    hide Regrouped, MetricName, AllReadable, Holds, FIELDS;
    FieldKnown(Field(CollSide, stat));
    FieldKnown(Field(LayerSide, stat));
    FieldIsMeasured(nn, coll, overlap, pairs, p, Field(CollSide, stat));
    FieldIsMeasured(nn, coll, overlap, pairs, p, Field(LayerSide, stat));
  }
}
