/** HTTP metrics: the running tally of a group of points, nearest-rank percentiles, and `buildSeries`.
    Timestamps are integers, durations exact reals, and a percentile's rank is computed exactly. */
module Metrics {
  import opened Options
  import opened Ordering

  datatype Point = Point(ts: int, httpMethod: string, route: string, name: Option<string>, status: Option<int>,
                         durationMs: Option<real>)

  datatype StatusClass = C2xx | C3xx | C4xx | C5xx

  function ClassOf(status: Option<int>): Option<StatusClass> {
    if status.None? then None
    else if status.value >= 500 then Some(C5xx)
    else if status.value >= 400 then Some(C4xx)
    else if status.value >= 300 then Some(C3xx)
    else if status.value >= 200 then Some(C2xx)
    else None
  }

  /** The class of a status is its hundreds, from 200 on, with everything from 500 on in the last. */
  lemma ClassExact(status: int)
    ensures ClassOf(Some(status)) == Some(C2xx) <==> 200 <= status < 300
    ensures ClassOf(Some(status)) == Some(C3xx) <==> 300 <= status < 400
    ensures ClassOf(Some(status)) == Some(C4xx) <==> 400 <= status < 500
    ensures ClassOf(Some(status)) == Some(C5xx) <==> status >= 500
    ensures ClassOf(None) == None
  {
  }

  predicate IsError(p: Point) { p.status.Some? && p.status.value >= 400 }

  function Duration(p: Point): real { if p.durationMs.Some? then p.durationMs.value else 0.0 }

  lemma DurationExact(p: Point)
    ensures p.durationMs == Some(Duration(p)) || (p.durationMs.None? && Duration(p) == 0.0)
  {
  }

  /** Math.floor(ts / width) * width. */
  function StartOf(ts: int, width: int): int
    requires width > 0
  {
    ts / width * width
  }

  ghost predicate Multiple(n: int, width: int) { exists k: int :: n == k * width }

  lemma MultiplesApart(j: int, k: int, width: int)
    requires width > 0 && j > k
    ensures j * width >= k * width + width
  {
    assert (j - k - 1) * width >= 0;
    assert (j - k - 1) * width == j * width - k * width - width;
  }

  /** The bucket of a timestamp is the multiple of the width it falls behind by less than a width. */
  lemma StartOfExact(ts: int, width: int, start: int)
    requires width > 0
    ensures StartOf(ts, width) == start <==> Multiple(start, width) && start <= ts < start + width
  {
    var k := ts / width;
    assert StartOf(ts, width) == k * width;
    assert Multiple(StartOf(ts, width), width);
    if Multiple(start, width) && start <= ts < start + width {
      var j: int :| start == j * width;
      if j > k { MultiplesApart(j, k, width); }
      if j < k { MultiplesApart(k, j, width); }
    }
  }

  // ---- Tallies --------------------------------------------------------------------------------------

  datatype Tally = Tally(count: nat, errorCount: nat, total: real, min: Option<real>, max: Option<real>,
                         c2xx: nat, c3xx: nat, c4xx: nat, c5xx: nat)

  const EMPTY_TALLY := Tally(0, 0, 0.0, None, None, 0, 0, 0, 0)

  function Least(a: Option<real>, b: real): Option<real> { if a.Some? && a.value <= b then a else Some(b) }

  function Greatest(a: Option<real>, b: real): Option<real> { if a.Some? && a.value >= b then a else Some(b) }

  /** What one more point adds. */
  function Counted(t: Tally, p: Point): Tally {
    var sc, d := ClassOf(p.status), Duration(p);
    Tally(t.count + 1, t.errorCount + (if IsError(p) then 1 else 0), t.total + d, Least(t.min, d), Greatest(t.max, d),
          t.c2xx + (if sc == Some(C2xx) then 1 else 0), t.c3xx + (if sc == Some(C3xx) then 1 else 0),
          t.c4xx + (if sc == Some(C4xx) then 1 else 0), t.c5xx + (if sc == Some(C5xx) then 1 else 0))
  }

  function TallyOf(points: seq<Point>): Tally {
    if points == [] then EMPTY_TALLY else Counted(TallyOf(points[..|points| - 1]), points[|points| - 1])
  }

  function HasClass(sc: StatusClass): Point -> bool { (p: Point) => ClassOf(p.status) == Some(sc) }

  function Errors(): Point -> bool { (p: Point) => IsError(p) }

  function TotalDuration(points: seq<Point>): real {
    if points == [] then 0.0 else TotalDuration(points[..|points| - 1]) + Duration(points[|points| - 1])
  }

  lemma SelectLast<T>(keep: T -> bool, s: seq<T>)
    requires s != []
    ensures Select(keep, s) == Select(keep, s[..|s| - 1]) + (if keep(s[|s| - 1]) then [s[|s| - 1]] else [])
  {
    SelectConcat(keep, s[..|s| - 1], [s[|s| - 1]]);
    assert s == s[..|s| - 1] + [s[|s| - 1]];
  }

  /** The tally counts what it says: points, errors (exactly the 4xx and 5xx ones), classes, the sum and the
      two extremes of the durations. */
  lemma {:induction false} TallyCounts(points: seq<Point>)
    ensures var t := TallyOf(points);
      && t.count == |points| && t.errorCount == |Select(Errors(), points)| == t.c4xx + t.c5xx
      && t.c2xx == |Select(HasClass(C2xx), points)| && t.c3xx == |Select(HasClass(C3xx), points)|
      && t.c4xx == |Select(HasClass(C4xx), points)| && t.c5xx == |Select(HasClass(C5xx), points)|
      && t.total == TotalDuration(points)
  {
    if points != [] {
      TallyCounts(points[..|points| - 1]);
      SelectLast(Errors(), points);
      SelectLast(HasClass(C2xx), points);
      SelectLast(HasClass(C3xx), points);
      SelectLast(HasClass(C4xx), points);
      SelectLast(HasClass(C5xx), points);
    }
  }

  lemma {:induction false} TallyRange(points: seq<Point>)
    requires points != []
    ensures var t := TallyOf(points);
      && t.min.Some? && t.max.Some?
      && (forall p :: p in points ==> t.min.value <= Duration(p) <= t.max.value)
      && (exists p :: p in points && Duration(p) == t.min.value)
      && (exists p :: p in points && Duration(p) == t.max.value)
  {
    var front, p := points[..|points| - 1], points[|points| - 1];
    assert points == front + [p] && p in points;
    if front != [] {
      TallyRange(front);
      var t := TallyOf(front);
      var low :| low in front && Duration(low) == t.min.value;
      var high :| high in front && Duration(high) == t.max.value;
      assert low in points && high in points;
    }
  }

  // ---- Percentiles ------------------------------------------------------------------------------------

  function RealLeq(): (real, real) -> bool { (a: real, b: real) => a <= b }

  /** ceil(p / 100 * n). */
  function Rank(p: nat, n: nat): nat { (p * n + 99) / 100 }

  function Percentile(sortedAsc: seq<real>, p: nat): Option<real> {
    if sortedAsc == [] then None
    else
      var rank := Rank(p, |sortedAsc|);
      var idx := if rank == 0 then 0 else if rank - 1 < |sortedAsc| - 1 then rank - 1 else |sortedAsc| - 1;
      Some(sortedAsc[idx])
  }

  function AtMost(v: real): real -> bool { (d: real) => d <= v }

  lemma {:induction false} SelectAll<T>(keep: T -> bool, s: seq<T>)
    ensures (forall x :: x in s ==> keep(x)) ==> Select(keep, s) == s
    ensures (forall x :: x in s ==> !keep(x)) ==> Select(keep, s) == []
  {
    if s != [] {
      assert s == [s[0]] + s[1..];
      SelectAll(keep, s[1..]);
    }
  }

  /** In a sorted list, the elements up to a value are exactly those before the first larger one. */
  lemma RanksInSorted(s: seq<real>, i: nat, v: real)
    requires SortedBy(RealLeq(), s) && i < |s|
    ensures s[i] <= v ==> |Select(AtMost(v), s)| >= i + 1
    ensures s[i] > v ==> |Select(AtMost(v), s)| <= i
  {
    if s[i] <= v { RankLow(s, i, v); } else { RankHigh(s, i, v); }
  }

  lemma RankLow(s: seq<real>, i: nat, v: real)
    requires SortedBy(RealLeq(), s) && i < |s| && s[i] <= v
    ensures |Select(AtMost(v), s)| >= i + 1
  {
    var low := s[..i + 1];
    forall x | x in low ensures AtMost(v)(x) {
      var j :| 0 <= j <= i && s[j] == x;
      assert j < i ==> RealLeq()(s[j], s[i]);
    }
    SelectAll(AtMost(v), low);
    SelectConcat(AtMost(v), low, s[i + 1..]);
    assert s == low + s[i + 1..];
  }

  lemma RankHigh(s: seq<real>, i: nat, v: real)
    requires SortedBy(RealLeq(), s) && i < |s| && s[i] > v
    ensures |Select(AtMost(v), s)| <= i
  {
    var high := s[i..];
    forall x | x in high ensures !AtMost(v)(x) {
      var j :| i <= j < |s| && s[j] == x;
      assert i < j ==> RealLeq()(s[i], s[j]);
    }
    SelectAll(AtMost(v), high);
    SelectConcat(AtMost(v), s[..i], high);
    SelectShorter(AtMost(v), s[..i]);
    assert s == s[..i] + high;
  }

  lemma {:induction false} SelectShorter<T>(keep: T -> bool, s: seq<T>)
    ensures |Select(keep, s)| <= |s|
  {
    if s != [] { SelectShorter(keep, s[1..]); }
  }

  lemma RankBounds(p: nat, n: nat)
    requires p <= 100
    ensures Rank(p, n) <= n && 100 * Rank(p, n) >= p * n
    ensures Rank(p, n) > 0 ==> 100 * (Rank(p, n) - 1) < p * n
  {
    assert p * n <= 100 * n;
  }

  /** Nearest rank: the percentile is a recorded value with at least p percent of the values at or below
      it, and no smaller recorded value has that. */
  lemma PercentileIsNearestRank(s: seq<real>, p: nat)
    requires SortedBy(RealLeq(), s) && s != [] && p <= 100
    ensures var v := Percentile(s, p).value;
      && v in s
      && 100 * |Select(AtMost(v), s)| >= p * |s|
      && forall w :: w in s && w < v ==> 100 * |Select(AtMost(w), s)| < p * |s|
  {
    var n, rank, v := |s|, Rank(p, |s|), Percentile(s, p).value;
    RankBounds(p, n);
    var idx := if rank == 0 then 0 else rank - 1;
    assert v == s[idx];
    RanksInSorted(s, idx, v);
    forall w | w in s && w < v ensures 100 * |Select(AtMost(w), s)| < p * n {
      RanksInSorted(s, idx, w);
    }
  }

  lemma PercentilesGrow(s: seq<real>, p: nat, q: nat)
    requires SortedBy(RealLeq(), s) && s != [] && p <= q <= 100
    ensures s[0] <= Percentile(s, p).value <= Percentile(s, q).value <= s[|s| - 1]
  {
    var n := |s|;
    RankBounds(p, n);
    RankBounds(q, n);
    assert p * n <= q * n;
    assert forall j, k :: 0 <= j < k < |s| ==> RealLeq()(s[j], s[k]);
  }
}
