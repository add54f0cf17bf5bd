/** Batched metric queries and the statistics of their series. */
module Metrics {
  import opened Text

  // ---------- batches ----------

  function Flat<T>(batches: seq<seq<T>>): seq<T> {
    if batches == [] then [] else Flat(batches[..|batches| - 1]) + batches[|batches| - 1]
  }

  /** `ChunkInstanceIDs`: the batches give the ids back in order; a batch stays within the metric
      budget when one instance does, and holds one instance otherwise; no batch before the last has
      room for another instance. */
  method ChunkIds(ids: seq<string>, perInstance: int, maxMetrics: int) returns (batches: seq<seq<string>>)
    ensures perInstance <= 0 || maxMetrics <= 0 ==> batches == []
    ensures perInstance > 0 && maxMetrics > 0 ==> Flat(batches) == ids
    ensures forall b :: b in batches ==> |b| > 0
    ensures forall b :: b in batches ==> if perInstance <= maxMetrics then |b| * perInstance <= maxMetrics else |b| == 1
    ensures forall k :: 0 <= k < |batches| - 1 ==> (|batches[k]| + 1) * perInstance > maxMetrics
  {
    batches := [];
    if perInstance <= 0 || maxMetrics <= 0 { return; }
    var perBatch := maxMetrics / perInstance;
    if perBatch < 1 { perBatch := 1; }
    BatchBudget(perInstance, maxMetrics, perBatch);
    var i := 0;
    while i < |ids|
      invariant Flat(batches) == if i <= |ids| then ids[..i] else ids
      invariant forall b :: b in batches ==> 0 < |b| <= perBatch
      invariant forall k :: 0 <= k < |batches| && (k < |batches| - 1 || i <= |ids|) ==> |batches[k]| == perBatch
    {
      var j := if i + perBatch > |ids| then |ids| else i + perBatch;
      assert ids[..j] == ids[..i] + ids[i..j];
      batches := batches + [ids[i..j]];
      i := i + perBatch;
    }
    assert ids[..|ids|] == ids;
    forall b | b in batches ensures perInstance <= maxMetrics ==> |b| * perInstance <= maxMetrics {
      if perInstance <= maxMetrics { Times(|b|, perBatch, perInstance); }
    }
  }

  lemma BatchBudget(perInstance: int, maxMetrics: int, perBatch: int)
    requires perInstance > 0 && maxMetrics > 0
    requires perBatch == if maxMetrics / perInstance < 1 then 1 else maxMetrics / perInstance
    ensures perInstance <= maxMetrics ==> perBatch * perInstance <= maxMetrics
    ensures perInstance > maxMetrics ==> perBatch == 1
    ensures (perBatch + 1) * perInstance > maxMetrics
  {
    assert maxMetrics == maxMetrics / perInstance * perInstance + maxMetrics % perInstance;
  }

  lemma Times(a: nat, b: nat, c: nat)
    requires a <= b
    ensures a * c <= b * c
  {}

  // ---------- keys ----------

  /** A query for one metric: the values of its dimensions, the first one always there. */
  datatype Query = Query(values: seq<string>, metric: string)

  const NUL := '\U{0000}'

  predicate WellFormed(q: Query) {
    q.values != [] && NUL !in q.metric && forall v :: v in q.values ==> NUL !in v
  }

  /** `mapKey`. */
  function QueryKey(q: Query): string { Join(q.values, NUL) + [NUL] + q.metric }

  function Inky(values: seq<string>): seq<string>
    decreases |values|
  {
    if values == [] then []
    else if Trim(values[|values| - 1]) != "" then Inky(values[..|values| - 1]) + [values[|values| - 1]]
    else Inky(values[..|values| - 1])
  }

  /** The key under which a response is filed: blank dimension values are skipped. */
  function ResponseKey(q: Query): string { Join(Inky(q.values), NUL) + [NUL] + q.metric }

  lemma {:induction false} JoinSnoc(parts: seq<string>, last: string, c: char)
    requires parts != []
    ensures Join(parts + [last], c) == Join(parts, c) + [c] + last
  {
    assert (parts + [last])[1..] == parts[1..] + [last];
    if |parts| > 1 { JoinSnoc(parts[1..], last, c); }
  }

  /** Without NUL in names and values, a key determines the values and the metric. */
  lemma KeyInjective(a: Query, b: Query)
    requires WellFormed(a) && WellFormed(b) && QueryKey(a) == QueryKey(b)
    ensures a == b
  {
    JoinSnoc(a.values, a.metric, NUL);
    JoinSnoc(b.values, b.metric, NUL);
    SplitOfJoin(a.values + [a.metric], NUL);
    SplitOfJoin(b.values + [b.metric], NUL);
    assert a.values == (a.values + [a.metric])[..|a.values|];
    assert b.values == (b.values + [b.metric])[..|b.values|];
    assert (a.values + [a.metric])[|a.values|] == a.metric;
    assert (b.values + [b.metric])[|b.values|] == b.metric;
  }

  lemma {:induction false} JoinLength(parts: seq<string>, last: string, c: char)
    ensures |Join(parts + [last], c)| == |last| + (if parts == [] then 0 else |Join(parts, c)| + 1)
  {
    if parts == [] {
      assert parts + [last] == [last];
    } else {
      JoinSnoc(parts, last, c);
    }
  }

  lemma {:induction false} InkyShorter(values: seq<string>)
    ensures |Inky(values)| <= |values| && (Inky(values) == values <==> forall v :: v in values ==> Trim(v) != "")
    ensures Inky(values) != values && values != [""] ==> |Join(Inky(values), NUL)| < |Join(values, NUL)|
    decreases |values|
  {
    if values != [] {
      var init, last := values[..|values| - 1], values[|values| - 1];
      assert values == init + [last];
      InkyShorter(init);
      JoinLength(init, last, NUL);
      JoinLength(Inky(init), last, NUL);
    }
  }

  /** A response is filed under its query's key exactly when no dimension value is blank, or the one
      value there is is empty. */
  lemma KeysAgree(q: Query)
    ensures ResponseKey(q) == QueryKey(q) <==> (forall v :: v in q.values ==> Trim(v) != "") || q.values == [""]
  {
    InkyShorter(q.values);
    if q.values == [""] {
      assert q.values[..0] == [];
      assert Trim("") == "";
      assert Inky(q.values) == [];
    }
    assert |ResponseKey(q)| == |Join(Inky(q.values), NUL)| + 1 + |q.metric|;
    assert |QueryKey(q)| == |Join(q.values, NUL)| + 1 + |q.metric|;
  }

  // ---------- batched queries ----------

  const MAX_METRICS_PER_BATCH: nat := 10

  type Series = seq<Option<real>>

  /** The series under each response key, in the order of the queries. */
  function Collected(queries: seq<Query>, serve: Query -> Series): map<string, Series>
    decreases |queries|
  {
    if queries == [] then map[]
    else Filed(Collected(queries[..|queries| - 1], serve), queries[|queries| - 1], serve)
  }

  function Filed(m: map<string, Series>, q: Query, serve: Query -> Series): map<string, Series> {
    var k := ResponseKey(q);
    m[k := (if k in m then m[k] else []) + serve(q)]
  }

  lemma CollectedStep(queries: seq<Query>, serve: Query -> Series, i: nat)
    requires i < |queries|
    ensures Collected(queries[..i + 1], serve) == Filed(Collected(queries[..i], serve), queries[i], serve)
  {
    assert queries[..i + 1][..i] == queries[..i];
  }

  /** The answers of one call are filed. */
  method FileBatch(queries: seq<Query>, serve: Query -> Series, start: nat, end: nat, m: map<string, Series>)
    returns (out: map<string, Series>)
    requires start <= end <= |queries| && m == Collected(queries[..start], serve)
    ensures out == Collected(queries[..end], serve)
  {
    hide Collected, Filed;
    out := m;
    for i := start to end
      invariant out == Collected(queries[..i], serve)
    {
      CollectedStep(queries, serve, i);
      out := Filed(out, queries[i], serve);
    }
  }

  /** `BatchQueryAverageSeries`: the calls of all batches together collect the series of all queries,
      with ten queries in every call but the last; the first failing call ends it. */
  method BatchQuery(queries: seq<Query>, serve: Query -> Series, works: nat -> bool)
    returns (r: Option<map<string, Series>>, calls: nat)
    ensures r.Some? ==> r.value == Collected(queries, serve)
    ensures r.Some? ==> 10 * (calls - 1) < |queries| <= 10 * calls && forall n :: 0 <= n < calls ==> works(n)
    ensures r.None? ==> 10 * calls < |queries| && !works(calls)
  {
    hide Collected, Filed;
    var out: map<string, Series> := map[];
    assert queries[..0] == [] && Collected([], serve) == map[] by { NothingCollected(serve); }
    calls := 0;
    var start := 0;
    while start < |queries|
      invariant start == 10 * calls && 10 * (calls - 1) < |queries|
      invariant out == Collected(queries[..if start <= |queries| then start else |queries|], serve)
      invariant forall n :: 0 <= n < calls ==> works(n)
    {
      var end := if start + MAX_METRICS_PER_BATCH > |queries| then |queries| else start + MAX_METRICS_PER_BATCH;
      if !works(calls) { return None, calls; }
      out := FileBatch(queries, serve, start, end, out);
      start, calls := start + MAX_METRICS_PER_BATCH, calls + 1;
    }
    assert queries[..|queries|] == queries;
    r := Some(out);
  }

  lemma NothingCollected(serve: Query -> Series)
    ensures Collected([], serve) == map[]
  {}

  predicate Answerable(q: Query) {
    WellFormed(q) && forall v :: v in q.values ==> Trim(v) != ""
  }

  /** Different queries are answered apart: each finds exactly its own series under its key. */
  lemma {:induction false} SeriesOfQuery(queries: seq<Query>, serve: Query -> Series, q: Query)
    requires NoDup(queries) && Answerable(q) && forall o :: o in queries ==> Answerable(o)
    ensures QueryKey(q) in Collected(queries, serve) <==> q in queries
    ensures q in queries ==> Collected(queries, serve)[QueryKey(q)] == serve(q)
    decreases |queries|
  {
    if queries != [] {
      var init, last := queries[..|queries| - 1], queries[|queries| - 1];
      hide QueryKey, ResponseKey, Filed;
      assert queries == init + [last] && last in queries;
      assert last !in init && forall o :: o in init ==> o in queries;
      AnsweredKeys(q, last);
      SeriesOfQuery(init, serve, q);
      if q == last { SeriesOfQuery(init, serve, last); }
    }
  }

  lemma AnsweredKeys(q: Query, o: Query)
    requires Answerable(q) && Answerable(o)
    ensures ResponseKey(o) == QueryKey(o) && (QueryKey(q) == QueryKey(o) ==> q == o)
  {
    KeysAgree(o);
    if QueryKey(q) == QueryKey(o) { KeyInjective(q, o); }
  }

  // ---------- statistics ----------

  /** The usable points of a series. */
  function Usable(points: Series): seq<real>
    decreases |points|
  {
    if points == [] then []
    else if points[|points| - 1].Some? then Usable(points[..|points| - 1]) + [points[|points| - 1].value]
    else Usable(points[..|points| - 1])
  }

  function Sum(s: seq<real>): real
    decreases |s|
  {
    if s == [] then 0.0 else Sum(s[..|s| - 1]) + s[|s| - 1]
  }

  /** The usable points are the present values, each as often as it occurs. */
  lemma {:induction false} UsableAre(points: Series, v: real)
    ensures v in Usable(points) <==> Some(v) in points
    ensures multiset(Usable(points))[v] == multiset(points)[Some(v)]
    decreases |points|
  {
    if points != [] {
      var init, last := points[..|points| - 1], points[|points| - 1];
      assert points == init + [last];
      UsableAre(init, v);
    }
  }

  /** The sum adds up over parts, and over one value is that value. */
  lemma {:induction false} SumAppend(a: seq<real>, b: seq<real>)
    ensures Sum(a + b) == Sum(a) + Sum(b)
    ensures |a| == 1 ==> Sum(a) == a[0]
    decreases |b|
  {
    if b == [] {
      assert a + b == a;
    } else {
      SumAppend(a, b[..|b| - 1]);
      assert (a + b)[..|a + b| - 1] == a + b[..|b| - 1];
    }
    if |a| == 1 { assert a[..0] == []; }
  }

  lemma UsableStep(points: Series, i: nat)
    requires i < |points|
    ensures Usable(points[..i + 1]) ==
            if points[i].Some? then Usable(points[..i]) + [points[i].value] else Usable(points[..i])
    ensures points[i].Some? ==> Sum(Usable(points[..i + 1])) == Sum(Usable(points[..i])) + points[i].value
  {
    assert points[..i + 1][..i] == points[..i];
    var before := Usable(points[..i]);
    if points[i].Some? { assert (before + [points[i].value])[..|before|] == before; }
  }

  lemma {:induction false} SumBounds(s: seq<real>, lo: real, hi: real)
    requires forall v :: v in s ==> lo <= v <= hi
    ensures |s| as real * lo <= Sum(s) <= |s| as real * hi
    decreases |s|
  {
    if s != [] {
      var init, last := s[..|s| - 1], s[|s| - 1];
      assert s == init + [last] && forall v :: v in init ==> v in s;
      SumBounds(init, lo, hi);
      assert last in s;
    }
  }

  predicate Bounds(u: seq<real>, lo: real, hi: real) {
    u != [] ==> lo in u && hi in u && forall v :: v in u ==> lo <= v <= hi
  }

  /** The scan over the points. */
  method Scan(points: Series) returns (peak: real, min: real, sum: real, n: nat)
    ensures n == |Usable(points)| && sum == Sum(Usable(points)) && Bounds(Usable(points), min, peak)
  {
    sum, n, peak, min := 0.0, 0, 0.0, 0.0;
    ghost var u: seq<real> := [];
    for i := 0 to |points|
      invariant u == Usable(points[..i]) && n == |u| && sum == Sum(u) && Bounds(u, min, peak)
    {
      UsableStep(points, i);
      if points[i].None? { continue; }
      var v := points[i].value;
      u := u + [v];
      n := n + 1;
      sum := sum + v;
      if n == 1 {
        peak, min := v, v;
      } else {
        if v > peak { peak := v; }
        if v < min { min := v; }
      }
    }
    assert points[..|points|] == points;
  }

  /** `PeakAvgMinFromAveragePoints`: over the points that have a value, minimum and peak are attained
      bounds and the average is the mean and lies between them. */
  method PeakAvgMin(points: Series) returns (peak: real, avg: real, min: real, ok: bool)
    ensures ok <==> exists v :: Some(v) in points
    ensures ok ==> Some(peak) in points && Some(min) in points
    ensures ok ==> forall v :: Some(v) in points ==> min <= v <= peak
    ensures ok ==> avg * |Usable(points)| as real == Sum(Usable(points)) && min <= avg <= peak
    ensures !ok ==> peak == avg == min == 0.0
  {
    hide Usable, Sum;
    var n, sum;
    peak, min, sum, n := Scan(points);
    forall v ensures v in Usable(points) <==> Some(v) in points { UsableAre(points, v); }
    if n == 0 { return 0.0, 0.0, 0.0, false; }
    SumBounds(Usable(points), min, peak);
    avg := sum / n as real;
    ok := true;
  }
}
