/** `buildSeries`: points grouped into time buckets, in order, each with its tally and percentiles. */
module MetricSeries {
  import opened Options
  import opened Ordering
  import opened Grouping
  import opened Metrics

  datatype Bucket = Bucket(start: int, tally: Tally, avg: int, p50: Option<real>, p95: Option<real>, p99: Option<real>)

  /** A bucket while points still arrive. */
  datatype Entry = Entry(tally: Tally, durations: seq<real>)

  function Width(bucketMs: int): (w: int)
    ensures w > 0
  {
    if bucketMs > 0 then bucketMs else 60_000
  }

  /** The bucket start of a point. */
  function StartKey(width: int): Point -> int { (p: Point) => if width > 0 then StartOf(p.ts, width) else p.ts }

  function Durations(points: seq<Point>): (ds: seq<real>)
    ensures |ds| == |points|
  {
    if points == [] then [] else Durations(points[..|points| - 1]) + [Duration(points[|points| - 1])]
  }

  function EntryOf(points: seq<Point>): Entry { Entry(TallyOf(points), Durations(points)) }

  /** Math.round. */
  function Round(x: real): int { (x + 0.5).Floor }

  function Finish(start: int, g: Entry): Bucket {
    var sorted := StableSort(RealLeq(), g.durations);
    Bucket(start, g.tally, if g.tally.count == 0 then 0 else Round(g.tally.total / g.tally.count as real),
           Percentile(sorted, 50), Percentile(sorted, 95), Percentile(sorted, 99))
  }

  function IntLeq(): (int, int) -> bool { (a: int, b: int) => a <= b }

  /** One bucket for every start some point has, each over exactly its points, in time order. */
  ghost predicate IsSeries(points: seq<Point>, width: int, series: seq<Bucket>)
    requires width > 0
  {
    && (forall j, k :: 0 <= j < k < |series| ==> series[j].start < series[k].start)
    && (forall k :: 0 <= k < |series| ==>
          series[k] == Finish(series[k].start, EntryOf(Group(StartKey(width), series[k].start, points))))
    && (forall k :: 0 <= k < |series| ==> Group(StartKey(width), series[k].start, points) != [])
    && (forall p :: p in points ==> exists k :: 0 <= k < |series| && series[k].start == StartKey(width)(p))
  }

  // ---- The two loops ------------------------------------------------------------------------------

  /** The entry of a key, if it has points, is made of its points. */
  ghost predicate GroupedAt(points: seq<Point>, keyOf: Point -> int, buckets: map<int, Entry>, k: int) {
    var own := Group(keyOf, k, points);
    (k in buckets <==> own != []) && (k in buckets ==> buckets[k] == EntryOf(own))
  }

  ghost predicate Listed(buckets: map<int, Entry>, order: seq<int>) {
    && (forall k :: k in order <==> k in buckets)
    && (forall i, j :: 0 <= i < j < |order| ==> order[i] != order[j])
  }

  ghost predicate Grouped(points: seq<Point>, keyOf: Point -> int, buckets: map<int, Entry>, order: seq<int>) {
    (forall k :: GroupedAt(points, keyOf, buckets, k)) && Listed(buckets, order)
  }

  function AddPoint(buckets: map<int, Entry>, key: int, p: Point): map<int, Entry> {
    var e := if key in buckets then buckets[key] else Entry(EMPTY_TALLY, []);
    buckets[key := Entry(Counted(e.tally, p), e.durations + [Duration(p)])]
  }

  lemma AddKeepsGroup(points: seq<Point>, keyOf: Point -> int, buckets: map<int, Entry>, p: Point, k: int)
    requires GroupedAt(points, keyOf, buckets, k)
    ensures GroupedAt(points + [p], keyOf, AddPoint(buckets, keyOf(p), p), k)
  {
    var own := Group(keyOf, k, points);
    GroupStep(keyOf, k, points, p);
    if keyOf(p) == k {
      assert Group(keyOf, k, points + [p]) == own + [p];
      assert k !in buckets ==> EntryOf(own) == EntryOf([]);
    } else {
      assert Group(keyOf, k, points + [p]) == own;
    }
  }

  method GroupPoints(points: seq<Point>, keyOf: Point -> int) returns (buckets: map<int, Entry>, order: seq<int>)
    ensures Grouped(points, keyOf, buckets, order)
  {
    buckets, order := map[], [];
    for i := 0 to |points|
      invariant Grouped(points[..i], keyOf, buckets, order)
    {
      var p := points[i];
      var start := keyOf(p);
      ghost var before := buckets;
      forall k ensures GroupedAt(points[..i] + [p], keyOf, AddPoint(before, start, p), k) {
        assert GroupedAt(points[..i], keyOf, before, k);
        AddKeepsGroup(points[..i], keyOf, before, p, k);
      }
      assert points[..i + 1] == points[..i] + [p];
      if start !in buckets {
        buckets := buckets[start := Entry(EMPTY_TALLY, [])];
        order := order + [start];
      }
      var b := buckets[start];
      buckets := buckets[start := Entry(Counted(b.tally, p), b.durations + [Duration(p)])];
      assert buckets == AddPoint(before, start, p);
    }
    assert points[..|points|] == points;
  }

  method BuildSeries(points: seq<Point>, bucketMs: int) returns (series: seq<Bucket>)
    ensures IsSeries(points, if bucketMs > 0 then bucketMs else 60_000, series)
  {
    var width := Width(bucketMs);
    var buckets, order := GroupPoints(points, StartKey(width));
    var starts := StableSort(IntLeq(), order);
    SortedStarts(order);
    assert forall k :: 0 <= k < |starts| ==> starts[k] in starts;
    series := [];
    for k := 0 to |starts|
      invariant |series| == k
      invariant forall j :: 0 <= j < k ==> series[j] == Finish(starts[j], buckets[starts[j]])
    {
      series := series + [Finish(starts[k], buckets[starts[k]])];
    }
    forall p | p in points ensures exists k :: 0 <= k < |series| && series[k].start == StartKey(width)(p) {
      var start := StartKey(width)(p);
      assert GroupedAt(points, StartKey(width), buckets, start);
      GroupMember(StartKey(width), start, points, p);
      assert start in starts;
      var k :| 0 <= k < |starts| && starts[k] == start;
      assert series[k].start == starts[k];
    }
    forall k | 0 <= k < |series|
      ensures series[k].start == starts[k] && GroupedAt(points, StartKey(width), buckets, starts[k]) && starts[k] in buckets
    {
    }
  }

  lemma SortedStarts(order: seq<int>)
    requires forall j, k :: 0 <= j < k < |order| ==> order[j] != order[k]
    ensures var starts := StableSort(IntLeq(), order);
      && (forall j, k :: 0 <= j < k < |starts| ==> starts[j] < starts[k])
      && (forall s :: s in starts <==> s in order)
  {
    var starts := StableSort(IntLeq(), order);
    SortSorted(IntLeq(), order);
    SortMembers(IntLeq(), order);
    SortMultiset(IntLeq(), order);
    DistinctByMultiset(order);
    forall j, k | 0 <= j < k < |starts| ensures starts[j] < starts[k] {
      assert IntLeq()(starts[j], starts[k]);
      if starts[j] == starts[k] {
        TwiceInMultiset(starts, j, k);
      }
    }
  }

  lemma {:induction false} DistinctByMultiset(s: seq<int>)
    requires forall j, k :: 0 <= j < k < |s| ==> s[j] != s[k]
    ensures forall x :: multiset(s)[x] <= 1
  {
    if s != [] {
      DistinctByMultiset(s[1..]);
      assert s == [s[0]] + s[1..];
      assert s[0] !in s[1..];
    }
  }

  lemma TwiceInMultiset(s: seq<int>, j: nat, k: nat)
    requires j < k < |s| && s[j] == s[k]
    ensures multiset(s)[s[j]] >= 2
  {
    assert s == s[..k] + s[k..];
    assert s[j] in s[..k] && s[k] in s[k..];
  }

  // ---- What a series says -------------------------------------------------------------------------

  function CountSum(series: seq<Bucket>): nat {
    if series == [] then 0 else CountSum(series[..|series| - 1]) + series[|series| - 1].tally.count
  }

  function Starts(series: seq<Bucket>): (starts: seq<int>)
    ensures |starts| == |series| && forall k :: 0 <= k < |series| ==> starts[k] == series[k].start
  {
    if series == [] then [] else Starts(series[..|series| - 1]) + [series[|series| - 1].start]
  }

  lemma {:induction false} CountsArePoints(points: seq<Point>, width: int, series: seq<Bucket>)
    requires width > 0
    requires forall k :: 0 <= k < |series| ==>
      series[k] == Finish(series[k].start, EntryOf(Group(StartKey(width), series[k].start, points)))
    ensures CountSum(series) == GroupSum(StartKey(width), Starts(series), points)
  {
    if series != [] {
      var n := |series| - 1;
      CountsArePoints(points, width, series[..n]);
      TallyCounts(Group(StartKey(width), series[n].start, points));
      assert Starts(series)[..n] == Starts(series[..n]);
    }
  }

  /** Nothing is lost and nothing counted twice: the counts add up to the number of points. */
  lemma SeriesConserves(points: seq<Point>, width: int, series: seq<Bucket>)
    requires width > 0 && IsSeries(points, width, series)
    ensures CountSum(series) == |points|
  {
    CountsArePoints(points, width, series);
    forall p | p in points ensures StartKey(width)(p) in Starts(series) {
      var k :| 0 <= k < |series| && series[k].start == StartKey(width)(p);
      assert Starts(series)[k] == series[k].start;
    }
    GroupsShareOut(StartKey(width), Starts(series), points);
  }

  // ---- One bucket ---------------------------------------------------------------------------------

  lemma {:induction false} DurationsMember(points: seq<Point>, d: real)
    ensures d in Durations(points) <==> exists p :: p in points && Duration(p) == d
  {
    if points != [] {
      var n := |points| - 1;
      DurationsMember(points[..n], d);
      assert points == points[..n] + [points[n]];
    }
  }

  lemma {:induction false} InsertCount(leq: (real, real) -> bool, keep: real -> bool, x: real, s: seq<real>)
    ensures |Select(keep, Insert(leq, x, s))| == |Select(keep, s)| + (if keep(x) then 1 else 0)
  {
    if s != [] {
      if leq(x, s[0]) {
        SelectConcat(keep, [x], s);
      } else {
        InsertCount(leq, keep, x, s[1..]);
        SelectConcat(keep, [s[0]], Insert(leq, x, s[1..]));
      }
    }
  }

  lemma {:induction false} SortCount(leq: (real, real) -> bool, keep: real -> bool, s: seq<real>)
    ensures |Select(keep, StableSort(leq, s))| == |Select(keep, s)|
  {
    if s != [] {
      SortCount(leq, keep, s[1..]);
      InsertCount(leq, keep, s[0], StableSort(leq, s[1..]));
    }
  }

  /** `v` is the smallest recorded duration with at least p percent of the durations at or below it. */
  ghost predicate IsPercentile(durations: seq<real>, p: nat, v: real) {
    && v in durations
    && 100 * |Select(AtMost(v), durations)| >= p * |durations|
    && forall w :: w in durations && w < v ==> 100 * |Select(AtMost(w), durations)| < p * |durations|
  }

  lemma PercentileOfGroup(durations: seq<real>, p: nat)
    requires durations != [] && p <= 100
    ensures var sorted := StableSort(RealLeq(), durations);
      sorted != [] && Percentile(sorted, p).Some? && IsPercentile(durations, p, Percentile(sorted, p).value)
  {
    var sorted := StableSort(RealLeq(), durations);
    SortSorted(RealLeq(), durations);
    SortMultiset(RealLeq(), durations);
    SortMembers(RealLeq(), durations);
    PercentileIsNearestRank(sorted, p);
    forall w ensures |Select(AtMost(w), sorted)| == |Select(AtMost(w), durations)| {
      SortCount(RealLeq(), AtMost(w), durations);
    }
  }

  /** The average of a bucket is the whole number nearest the mean duration of its points, halves up. */
  lemma AverageExact(points: seq<Point>, width: int, series: seq<Bucket>, k: nat)
    requires width > 0 && IsSeries(points, width, series) && k < |series|
    ensures var own := Group(StartKey(width), series[k].start, points);
      && own != [] && series[k].tally.count == |own|
      && series[k].avg as real - 0.5 <= TotalDuration(own) / |own| as real < series[k].avg as real + 0.5
  {
    var own := Group(StartKey(width), series[k].start, points);
    TallyCounts(own);
    assert series[k] == Finish(series[k].start, EntryOf(own));
    RoundNearest(TotalDuration(own) / |own| as real);
  }

  lemma RoundNearest(x: real)
    ensures Round(x) as real - 0.5 <= x < Round(x) as real + 0.5
  {
  }

  /** Every bucket of a series: its start is a multiple of the width, its errors are the 4xx and 5xx
      answers, its percentiles are nearest-rank ones between the two extremes, in order. */
  lemma BucketExact(points: seq<Point>, width: int, series: seq<Bucket>, k: nat)
    requires width > 0 && IsSeries(points, width, series) && k < |series|
    ensures var b := series[k];
      var durations := Durations(Group(StartKey(width), b.start, points));
      && Multiple(b.start, width)
      && b.tally.errorCount == b.tally.c4xx + b.tally.c5xx
      && b.tally.min.Some? && b.tally.max.Some? && b.p50.Some? && b.p95.Some? && b.p99.Some?
      && b.tally.min.value <= b.p50.value <= b.p95.value <= b.p99.value <= b.tally.max.value
      && IsPercentile(durations, 50, b.p50.value) && IsPercentile(durations, 95, b.p95.value)
      && IsPercentile(durations, 99, b.p99.value)
  {
    var b := series[k];
    var own := Group(StartKey(width), b.start, points);
    assert b == Finish(b.start, EntryOf(own)) && own != [];
    GroupMember(StartKey(width), b.start, points, own[0]);
    StartOfExact(own[0].ts, width, b.start);
    TallyCounts(own);
    PercentileOfGroup(Durations(own), 50);
    PercentileOfGroup(Durations(own), 95);
    PercentileOfGroup(Durations(own), 99);
    PercentilesInRange(own);
  }

  lemma PercentilesInRange(own: seq<Point>)
    requires own != []
    ensures var sorted, t := StableSort(RealLeq(), Durations(own)), TallyOf(own);
      && sorted != [] && t.min.Some? && t.max.Some?
      && t.min.value <= Percentile(sorted, 50).value <= Percentile(sorted, 95).value
      && Percentile(sorted, 95).value <= Percentile(sorted, 99).value <= t.max.value
  {
    var sorted, t := StableSort(RealLeq(), Durations(own)), TallyOf(own);
    SortSorted(RealLeq(), Durations(own));
    SortMultiset(RealLeq(), Durations(own));
    SortMembers(RealLeq(), Durations(own));
    PercentilesGrow(sorted, 50, 95);
    PercentilesGrow(sorted, 95, 99);
    TallyRange(own);
    assert sorted[0] in sorted && sorted[|sorted| - 1] in sorted;
    DurationsMember(own, sorted[0]);
    DurationsMember(own, sorted[|sorted| - 1]);
  }
}
