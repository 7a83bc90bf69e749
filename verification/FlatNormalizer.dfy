/** _normalize_flat_rank_payload and the row counts of accepted ranks (validation-tests/dltest/ingest.py).
    Dictionaries are visited in any order; the result does not depend on it. */
module FlatNormalizer {
  import opened Wrappers
  import opened FlatPayload
  import opened FlatRegrouping

  type Tasks = map<string, map<string, Value>>

  const FLAT_TEST_PLAN := "80gb-b200"

  /** The regrouped payload; every task has status completed. */
  datatype Normalized = Normalized(nn: Tasks, f: Tasks, coll: Tasks, overlap: PairMetrics)

  /** coll_cpu and coll_gpu take the registry's names. */
  function Renamed(values: map<string, Value>): map<string, Value>
    requires values.Keys == FLAT_COLLECTIVE_METRICS
  {
    (values - {"coll_cpu", "coll_gpu"})["cpu_time" := values["coll_cpu"]]["gpu_time" := values["coll_gpu"]]
  }

  function TaskMetrics(name: string, e: Entry): map<string, Value>
    requires TaskFits(name, e)
  {
    if KindOf(name) == CollTask then Renamed(e.values) else e.values
  }

  /** The tasks of one kind with their metrics. */
  ghost predicate GroupHolds(payload: map<string, Entry>, names: set<string>, kind: Kind, group: Tasks) {
    && group.Keys == (set n | n in names && KindOf(n) == kind)
    && forall n | n in group :: n in payload && TaskFits(n, payload[n]) && group[n] == TaskMetrics(n, payload[n])
  }

  ghost predicate GroupsHold(payload: map<string, Entry>, names: set<string>, nn: Tasks, f: Tasks, coll: Tasks) {
    GroupHolds(payload, names, NnTask, nn) && GroupHolds(payload, names, FTask, f) && GroupHolds(payload, names, CollTask, coll)
  }

  lemma GroupAdds(payload: map<string, Entry>, names: set<string>, kind: Kind, group: Tasks, n: string)
    requires GroupHolds(payload, names, kind, group) && n in payload && TaskFits(n, payload[n])
    ensures GroupHolds(payload, names + {n}, kind, if KindOf(n) == kind then group[n := TaskMetrics(n, payload[n])] else group)
  {
    hide KindOf, TaskFits, TaskMetrics;
  }

  method GroupTasks(payload: map<string, Entry>) returns (ok: bool, nn: Tasks, f: Tasks, coll: Tasks)
    ensures ok <==> TasksFit(payload)
    ensures ok ==> GroupsHold(payload, payload.Keys - RESERVED, nn, f, coll)
  {
    hide KindOf, TaskFits, TaskMetrics, GroupHolds;
    nn, f, coll := map[], map[], map[];
    NoGroups(payload);
    var todo := payload.Keys - RESERVED;
    while todo != {}
      invariant todo <= payload.Keys - RESERVED
      invariant forall n | n in payload.Keys - RESERVED - todo :: TaskFits(n, payload[n])
      invariant GroupsHold(payload, payload.Keys - RESERVED - todo, nn, f, coll)
      decreases |todo|
    {
      var name :| name in todo;
      if !TaskFits(name, payload[name]) {
        return false, nn, f, coll;
      }
      ghost var names := payload.Keys - RESERVED - todo;
      GroupAdds(payload, names, NnTask, nn, name);
      GroupAdds(payload, names, FTask, f, name);
      GroupAdds(payload, names, CollTask, coll, name);
      match KindOf(name) {
        case NnTask => nn := nn[name := TaskMetrics(name, payload[name])];
        case FTask => f := f[name := TaskMetrics(name, payload[name])];
        case CollTask => coll := coll[name := TaskMetrics(name, payload[name])];
      }
      todo := todo - {name};
      assert payload.Keys - RESERVED - todo == names + {name};
    }
    assert payload.Keys - RESERVED - todo == payload.Keys - RESERVED;
    ok := true;
  }

  lemma NoGroups(payload: map<string, Entry>)
    ensures GroupsHold(payload, payload.Keys - RESERVED - (payload.Keys - RESERVED), map[], map[], map[])
  {
  }

  /** The metrics of one outer name: regroup each and collect the inner names. */
  method ReadOuter(nn: set<string>, coll: set<string>, ghost overlap: map<string, Entry>, outer: string, values: map<string, Value>,
                   given: PairMetrics, ghost done: set<Raw>)
    returns (ok: bool, pairs: PairMetrics, innerNames: set<string>)
    requires nn !! coll && (outer in nn || outer in coll) && outer in overlap && overlap[outer] == Metrics(values)
    requires Regrouped(nn, overlap, done, given) && (forall r | r in done :: r.outer != outer)
    ensures ok <==> Readable(nn, coll, outer, overlap[outer])
    ensures ok ==> innerNames == InnerNames(overlap[outer])
    ensures ok ==> Regrouped(nn, overlap, done + (set m | m in values :: Raw(outer, m)), pairs)
  {
    hide Parse, Regrouped, Target;
    pairs, innerNames := given, {};
    var todo := values.Keys;
    assert done + (set m | m in values.Keys - todo :: Raw(outer, m)) == done;
    while todo != {}
      invariant todo <= values.Keys
      invariant forall m | m in values.Keys - todo :: MetricReadable(nn, coll, outer, m, values[m])
      invariant innerNames == set m | m in values.Keys - todo && Parse(m).Some? :: Parse(m).value.1
      invariant Regrouped(nn, overlap, done + (set m | m in values.Keys - todo :: Raw(outer, m)), pairs)
      decreases |todo|
    {
      var metric :| metric in todo;
      var m := Parse(metric);
      if m.None? || values[metric] == NotMetric {
        assert !MetricReadable(nn, coll, outer, metric, values[metric]);
        return false, pairs, innerNames;
      }
      var (stat, inner) := m.value;
      innerNames := innerNames + {inner};
      if inner !in (if outer in nn then coll else nn) {
        assert !MetricReadable(nn, coll, outer, metric, values[metric]);
        return false, pairs, innerNames;
      }
      var (pair, field) := Target(nn, Raw(outer, metric));
      ghost var read := done + (set m | m in values.Keys - todo :: Raw(outer, m));
      PlaceIsFree(nn, overlap, read, pairs, Raw(outer, metric));
      PlaceRegroups(nn, overlap, read, pairs, Raw(outer, metric));
      assert !(pair in pairs && field in pairs[pair]);
      pairs := Place(pairs, pair, field, values[metric]);
      ReadOneMore(outer, values.Keys, todo, metric);
      todo := todo - {metric};
      assert done + (set m | m in values.Keys - todo :: Raw(outer, m)) == read + {Raw(outer, metric)};
    }
    assert (set m | m in values.Keys - todo :: Raw(outer, m)) == set m | m in values :: Raw(outer, m);
    ok := true;
  }

  lemma ReadOneMore(outer: string, all: set<string>, todo: set<string>, metric: string)
    requires metric in todo && todo <= all
    ensures (set m | m in all - (todo - {metric}) :: Raw(outer, m)) == (set m | m in all - todo :: Raw(outer, m)) + {Raw(outer, metric)}
    ensures all - (todo - {metric}) == (all - todo) + {metric}
  {
  }

  /** The raw entries of some outer names. */
  function RawIn(overlap: map<string, Entry>, outers: set<string>): set<Raw> {
    set o, m | o in outers && o in overlap && overlap[o].Metrics? && m in overlap[o].values :: Raw(o, m)
  }

  lemma RawInGrows(overlap: map<string, Entry>, outers: set<string>, outer: string)
    requires outer in overlap && overlap[outer].Metrics?
    ensures RawIn(overlap, outers + {outer}) == RawIn(overlap, outers) + (set m | m in overlap[outer].values :: Raw(outer, m))
    ensures RawIn(overlap, {}) == {} && RawIn(overlap, overlap.Keys) == RawOf(overlap)
  {
  }

  /** Where the loop over the overlap section stands. */
  ghost predicate OverlapRead(nn: set<string>, coll: set<string>, overlap: map<string, Entry>, outers: set<string>, pairs: PairMetrics,
                              layerCounts: map<nat, nat>, collCounts: map<nat, nat>)
  {
    && outers <= overlap.Keys && (forall o | o in outers :: Readable(nn, coll, o, overlap[o]) && o in Inner(overlap))
    && Regrouped(nn, overlap, RawIn(overlap, outers), pairs)
    && Counts(layerCounts, outers * nn, Inner(overlap)) && Counts(collCounts, outers * coll, Inner(overlap))
  }

  lemma NothingRead(nn: set<string>, coll: set<string>, overlap: map<string, Entry>)
    ensures OverlapRead(nn, coll, overlap, {}, map[], map[], map[])
  {
  }

  lemma OuterRead(nn: set<string>, coll: set<string>, overlap: map<string, Entry>, outers: set<string>, pairs: PairMetrics,
                  layerCounts: map<nat, nat>, collCounts: map<nat, nat>, outer: string, next: PairMetrics)
    requires nn !! coll && outer in overlap && outer !in outers && Readable(nn, coll, outer, overlap[outer])
    requires OverlapRead(nn, coll, overlap, outers, pairs, layerCounts, collCounts)
    requires Regrouped(nn, overlap, RawIn(overlap, outers) + (set m | m in overlap[outer].values :: Raw(outer, m)), next)
    ensures var n := |InnerNames(overlap[outer])|;
      OverlapRead(nn, coll, overlap, outers + {outer}, next,
                  if outer in nn then layerCounts[n := Count(layerCounts, n) + 1] else layerCounts,
                  if outer in nn then collCounts else collCounts[n := Count(collCounts, n) + 1])
  {
    RawInGrows(overlap, outers, outer);
    hide Regrouped, Counts, RawIn, Readable, InnerNames, Count, Inner;
    OuterCounted(nn, coll, overlap, outers, layerCounts, collCounts, outer);
  }

  lemma OuterCounted(nn: set<string>, coll: set<string>, overlap: map<string, Entry>, outers: set<string>,
                     layerCounts: map<nat, nat>, collCounts: map<nat, nat>, outer: string)
    requires nn !! coll && outer in overlap && outer !in outers && Readable(nn, coll, outer, overlap[outer])
    requires outers <= Inner(overlap).Keys
    requires Counts(layerCounts, outers * nn, Inner(overlap)) && Counts(collCounts, outers * coll, Inner(overlap))
    ensures outer in Inner(overlap)
    ensures var n := |InnerNames(overlap[outer])|;
      && Counts(if outer in nn then layerCounts[n := Count(layerCounts, n) + 1] else layerCounts, (outers + {outer}) * nn, Inner(overlap))
      && Counts(if outer in nn then collCounts else collCounts[n := Count(collCounts, n) + 1], (outers + {outer}) * coll, Inner(overlap))
  {
    SplitKeys(outers, outer, nn, coll);
    assert outer in Inner(overlap) && Inner(overlap)[outer] == InnerNames(overlap[outer]);
    assert outer in nn || outer in coll;
    hide Counts, Readable, InnerNames, Count, Inner;
    if outer in nn {
      CountOne(layerCounts, outers * nn, Inner(overlap), outer);
    } else {
      CountOne(collCounts, outers * coll, Inner(overlap), outer);
    }
  }

  lemma SplitKeys(outers: set<string>, outer: string, nn: set<string>, coll: set<string>)
    requires nn !! coll
    ensures (outers + {outer}) * nn == if outer in nn then outers * nn + {outer} else outers * nn
    ensures (outers + {outer}) * coll == if outer in coll then outers * coll + {outer} else outers * coll
  {
  }

  /** The loop over the overlap section, with its two counters. */
  method ReadOverlap(nn: set<string>, coll: set<string>, overlap: map<string, Entry>)
    returns (ok: bool, pairs: PairMetrics, layerCounts: map<nat, nat>, collCounts: map<nat, nat>)
    requires nn !! coll
    ensures ok <==> AllReadable(nn, coll, overlap)
    ensures ok ==> OverlapRead(nn, coll, overlap, overlap.Keys, pairs, layerCounts, collCounts)
  {
    hide Regrouped, Counts, MetricReadable, Parse, RawIn, OverlapRead, Count;
    pairs, layerCounts, collCounts := map[], map[], map[];
    NothingRead(nn, coll, overlap);
    var todo := overlap.Keys;
    assert overlap.Keys - todo == {};
    while todo != {}
      invariant todo <= overlap.Keys
      invariant OverlapRead(nn, coll, overlap, overlap.Keys - todo, pairs, layerCounts, collCounts)
      decreases |todo|
    {
      var outer :| outer in todo;
      ghost var outers := overlap.Keys - todo;
      ReadFacts(nn, coll, overlap, outers, pairs, layerCounts, collCounts);
      if overlap[outer].OtherJson? || (outer !in nn && outer !in coll) {
        assert !Readable(nn, coll, outer, overlap[outer]);
        return false, pairs, layerCounts, collCounts;
      }
      var next, innerNames;
      ok, next, innerNames := ReadOuter(nn, coll, overlap, outer, overlap[outer].values, pairs, RawIn(overlap, outers));
      if !ok {
        return false, pairs, layerCounts, collCounts;
      }
      OuterRead(nn, coll, overlap, outers, pairs, layerCounts, collCounts, outer, next);
      pairs := next;
      var n := |innerNames|;
      if outer in nn {
        layerCounts := layerCounts[n := Count(layerCounts, n) + 1];
      } else {
        collCounts := collCounts[n := Count(collCounts, n) + 1];
      }
      todo := todo - {outer};
      assert overlap.Keys - todo == outers + {outer};
    }
    assert overlap.Keys - todo == overlap.Keys;
    ReadFacts(nn, coll, overlap, overlap.Keys, pairs, layerCounts, collCounts);
    ok := true;
  }

  lemma ReadFacts(nn: set<string>, coll: set<string>, overlap: map<string, Entry>, outers: set<string>, pairs: PairMetrics,
                  layerCounts: map<nat, nat>, collCounts: map<nat, nat>)
    requires OverlapRead(nn, coll, overlap, outers, pairs, layerCounts, collCounts)
    ensures Regrouped(nn, overlap, RawIn(overlap, outers), pairs) && (forall r | r in RawIn(overlap, outers) :: r.outer in outers)
    ensures outers == overlap.Keys ==> AllReadable(nn, coll, overlap)
  {
  }

  /** The final counts accept exactly the full products. */
  lemma ReadMeansProduct(nn: set<string>, coll: set<string>, overlap: map<string, Entry>, pairs: PairMetrics,
                         layerCounts: map<nat, nat>, collCounts: map<nat, nat>)
    requires nn !! coll && AllReadable(nn, coll, overlap)
    requires OverlapRead(nn, coll, overlap, overlap.Keys, pairs, layerCounts, collCounts)
    ensures layerCounts == map[6 := 8] && collCounts == map[8 := 6] && |pairs| == 48 && (forall p | p in pairs :: pairs[p].Keys == FIELDS)
            <==> FullProduct(nn, coll, overlap)
    ensures Regrouped(nn, overlap, RawOf(overlap), pairs)
    ensures FullProduct(nn, coll, overlap) ==> pairs.Keys == Product(overlap.Keys * coll, overlap.Keys * nn)
  {
    hide Regrouped, Counts, MetricReadable, Parse, RawIn, FullProduct, AllReadable, Product, Inner;
    assert RawIn(overlap, overlap.Keys) == RawOf(overlap) by {
      AllRaw(overlap);
    }
    CountsMeanProduct(nn, coll, overlap, pairs);
    SingleCount(layerCounts, overlap.Keys * nn, Inner(overlap), 6, 8);
    SingleCount(collCounts, overlap.Keys * coll, Inner(overlap), 8, 6);
  }

  lemma AllRaw(overlap: map<string, Entry>)
    ensures RawIn(overlap, overlap.Keys) == RawOf(overlap)
  {
  }

  /** What an accepted payload becomes: each field of each pair is the one raw value measured for it. */
  ghost predicate NormalizedFrom(payload: map<string, Entry>, overlap: map<string, Entry>, n: Normalized) {
    && GroupsHold(payload, payload.Keys - RESERVED, n.nn, n.f, n.coll)
    && n.overlap.Keys == Product(overlap.Keys * NamesOf(payload, CollTask), overlap.Keys * NamesOf(payload, NnTask))
    && forall p | p in n.overlap ::
         n.overlap[p].Keys == FIELDS
         && forall f | f in FIELDS :: Holds(overlap, Source(p, f)) && n.overlap[p][f] == RawValue(overlap, Source(p, f))
  }

  lemma GroupNames(payload: map<string, Entry>, nn: Tasks, f: Tasks, coll: Tasks)
    requires GroupsHold(payload, payload.Keys - RESERVED, nn, f, coll)
    ensures nn.Keys == NamesOf(payload, NnTask) && f.Keys == NamesOf(payload, FTask) && coll.Keys == NamesOf(payload, CollTask)
    ensures nn.Keys !! coll.Keys
  {
    hide KindOf, TaskFits, TaskMetrics;
  }

  lemma ValuesFromRaw(nn: set<string>, overlap: map<string, Entry>, pairs: PairMetrics, p: Pair)
    requires Regrouped(nn, overlap, RawOf(overlap), pairs) && p in pairs && pairs[p].Keys == FIELDS
    ensures forall f | f in FIELDS :: Holds(overlap, Source(p, f)) && pairs[p][f] == RawValue(overlap, Source(p, f))
  {
  }

  lemma NormalizedHolds(payload: map<string, Entry>, overlap: map<string, Entry>, n: Normalized)
    requires GroupsHold(payload, payload.Keys - RESERVED, n.nn, n.f, n.coll)
    requires n.overlap.Keys == Product(overlap.Keys * NamesOf(payload, CollTask), overlap.Keys * NamesOf(payload, NnTask))
    requires Regrouped(NamesOf(payload, NnTask), overlap, RawOf(overlap), n.overlap)
    requires forall p | p in n.overlap :: n.overlap[p].Keys == FIELDS
    ensures NormalizedFrom(payload, overlap, n)
  {
    hide GroupsHold, NamesOf, Product, Regrouped, Holds, RawOf, FIELDS, Source;
    forall p | p in n.overlap
      ensures forall f | f in FIELDS :: Holds(overlap, Source(p, f)) && n.overlap[p][f] == RawValue(overlap, Source(p, f))
    {
      ValuesFromRaw(NamesOf(payload, NnTask), overlap, n.overlap, p);
    }
  }

  /** _normalize_flat_rank_payload: accepts exactly the complete payloads. */
  method NormalizeFlatRankPayload(testPlan: string, payload: map<string, Entry>, overlapTasks: Option<map<string, Entry>>)
    returns (r: Option<Normalized>)
    ensures r.Some? <==> testPlan == FLAT_TEST_PLAN && overlapTasks.Some? && Acceptable(payload, overlapTasks.value)
    ensures r.Some? ==> NormalizedFrom(payload, overlapTasks.value, r.value)
  {
    hide GroupsHold, NamesOf, TasksFit, FullProduct, OverlapRead, AllReadable, Product, Regrouped, Holds, RawOf, NormalizedFrom, RESERVED, FIELDS;
    if testPlan != FLAT_TEST_PLAN || overlapTasks.None? {
      return None;
    }
    var overlap := overlapTasks.value;
    var ok, nn, f, coll := GroupTasks(payload);
    if !ok {
      return None;
    }
    GroupNames(payload, nn, f, coll);
    if |nn| != 57 || |f| != 38 || |coll| != 24 || |overlap| != 14 {
      OverlapSize(nn.Keys, coll.Keys, overlap);
      return None;
    }
    var pairs, layerCounts, collCounts;
    ok, pairs, layerCounts, collCounts := ReadOverlap(nn.Keys, coll.Keys, overlap);
    if !ok {
      ProductReadable(nn.Keys, coll.Keys, overlap);
      return None;
    }
    ReadMeansProduct(nn.Keys, coll.Keys, overlap, pairs, layerCounts, collCounts);
    if layerCounts != map[6 := 8] || collCounts != map[8 := 6] || |pairs| != 48 {
      return None;
    }
    if exists p :: p in pairs && pairs[p].Keys != FIELDS {
      return None;
    }
    NormalizedHolds(payload, overlap, Normalized(nn, f, coll, pairs));
    r := Some(Normalized(nn, f, coll, pairs));
  }

  lemma ProductReadable(nn: set<string>, coll: set<string>, overlap: map<string, Entry>)
    ensures FullProduct(nn, coll, overlap) ==> AllReadable(nn, coll, overlap)
  {
  }

  lemma OverlapSize(nn: set<string>, coll: set<string>, overlap: map<string, Entry>)
    requires nn !! coll
    ensures FullProduct(nn, coll, overlap) ==> |overlap| == 14
  {
    if FullProduct(nn, coll, overlap) {
      hide FullProduct, Inner, AllReadable;
      ProductParts(nn, coll, overlap);
      ReadableKinds(nn, coll, overlap);
      TwoParts(overlap.Keys, nn, coll);
    }
  }

  lemma ReadableKinds(nn: set<string>, coll: set<string>, overlap: map<string, Entry>)
    requires AllReadable(nn, coll, overlap)
    ensures forall o | o in overlap :: o in nn || o in coll
  {
  }

  lemma TwoParts(keys: set<string>, a: set<string>, b: set<string>)
    requires a !! b && forall k | k in keys :: k in a || k in b
    ensures |keys| == |keys * a| + |keys * b|
  {
    assert keys == keys * a + keys * b;
    assert keys * a !! keys * b;
  }
}
