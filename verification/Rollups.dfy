/** `aggregateRollups`: raw points downsampled to one record per bucket, method and route. */
module Rollups {
  import opened Options
  import opened Words
  import opened Grouping
  import opened Metrics

  datatype Rollup = Rollup(bucketStart: int, granularityMs: int, httpMethod: string, route: string,
                           name: Option<string>, tally: Tally)

  const HOUR_MS := 3_600_000

  function Granularity(granularityMs: int): (g: int)
    ensures g > 0
  {
    if granularityMs > 0 then granularityMs else HOUR_MS
  }

  // ---- Keys -----------------------------------------------------------------------------------------

  function Digit(d: nat): char
    requires d < 10
  {
    "0123456789"[d]
  }

  function NatText(n: nat): string { if n < 10 then [Digit(n)] else NatText(n / 10) + [Digit(n % 10)] }

  /** Decimal text of an integer. */
  function IntText(n: int): string { if n < 0 then "-" + NatText(-n) else NatText(n) }

  datatype Triple = Triple(bucketStart: int, httpMethod: string, route: string)

  function TripleOf(g: int): Point -> Triple {
    (p: Point) => Triple(if g > 0 then StartOf(p.ts, g) else p.ts, p.httpMethod, p.route)
  }

  /** `${bucketStart}|${method}|${route}` */
  function KeyText(t: Triple): string { IntText(t.bucketStart) + "|" + t.httpMethod + "|" + t.route }

  function KeyOf(g: int): Point -> string { (p: Point) => KeyText(TripleOf(g)(p)) }

  lemma {:induction false} NatTextDigits(n: nat)
    ensures NatText(n) != "" && Free(NatText(n), '|') && Free(NatText(n), '-')
  {
    if n >= 10 { NatTextDigits(n / 10); }
  }

  lemma LastDigit(n: nat)
    ensures NatText(n) != "" && NatText(n)[|NatText(n)| - 1] == Digit(n % 10)
    ensures n >= 10 ==> NatText(n)[..|NatText(n)| - 1] == NatText(n / 10)
  {
  }

  lemma {:induction false} NatTextUnique(m: nat, n: nat)
    requires NatText(m) == NatText(n)
    ensures m == n
  {
    NatTextDigits(m / 10);
    NatTextDigits(n / 10);
    var s := NatText(m);
    LastDigit(m);
    LastDigit(n);
    if m >= 10 && n >= 10 {
      assert s[..|s| - 1] == NatText(m / 10) == NatText(n / 10);
      NatTextUnique(m / 10, n / 10);
    }
  }

  lemma IntTextShape(n: int)
    ensures IntText(n) != "" && Free(IntText(n), '|') && (n < 0 <==> IntText(n)[0] == '-')
    ensures n < 0 ==> IntText(n)[1..] == NatText(-n)
  {
    NatTextDigits(if n < 0 then -n else n);
  }

  lemma IntTextUnique(m: int, n: int)
    requires IntText(m) == IntText(n)
    ensures m == n
  {
    IntTextShape(m);
    IntTextShape(n);
    if m < 0 { NatTextUnique(-m, -n); } else { NatTextUnique(m, n); }
  }

  /** The key tells triples apart as long as methods hold no bar. */
  lemma KeyTextUnique(s: Triple, t: Triple)
    requires Free(s.httpMethod, '|') && Free(t.httpMethod, '|')
    ensures KeyText(s) == KeyText(t) <==> s == t
  {
    if KeyText(s) == KeyText(t) {
      KeyParts(s);
      KeyParts(t);
      IntTextShape(s.bucketStart);
      IntTextShape(t.bucketStart);
      CutUnique(IntText(s.bucketStart), IntText(t.bucketStart), '|',
                s.httpMethod + ['|'] + s.route, t.httpMethod + ['|'] + t.route);
      IntTextUnique(s.bucketStart, t.bucketStart);
      CutUnique(s.httpMethod, t.httpMethod, '|', s.route, t.route);
    }
  }

  lemma KeyParts(t: Triple)
    ensures KeyText(t) == IntText(t.bucketStart) + ['|'] + (t.httpMethod + ['|'] + t.route)
  {
  }

  /** With a bar in the method two different triples share a key, and their points one rollup. */
  lemma BarMixesMethods()
    ensures KeyText(Triple(0, "GET|a", "b")) == KeyText(Triple(0, "GET", "a|b"))
  {
    assert "GET|a" == "GET" + "|" + "a" && "a|b" == "a" + "|" + "b";
    assert "0" + "|" + ("GET" + "|" + "a") + "|" + "b" == "0" + "|" + "GET" + "|" + ("a" + "|" + "b");
  }

  // ---- Aggregation ----------------------------------------------------------------------------------

  /** The keys of the points, in the order they first occur. */
  function KeysSeen<K(==)>(keyOf: Point -> K, points: seq<Point>): seq<K> {
    if points == [] then []
    else
      var before, k := KeysSeen(keyOf, points[..|points| - 1]), keyOf(points[|points| - 1]);
      if k in before then before else before + [k]
  }

  /** The record of a group: labelled by its first point, tallied over all. */
  function RollupOf(g: int, own: seq<Point>): Rollup
    requires own != []
  {
    var t := TripleOf(g)(own[0]);
    Rollup(t.bucketStart, g, t.httpMethod, t.route, own[0].name, TallyOf(own))
  }

  lemma {:induction false} KeysSeenExact<K>(keyOf: Point -> K, points: seq<Point>)
    ensures var keys := KeysSeen(keyOf, points);
      && (forall i, j :: 0 <= i < j < |keys| ==> keys[i] != keys[j])
      && (forall p :: p in points ==> keyOf(p) in keys)
      && (forall k :: k in keys ==> Group(keyOf, k, points) != [])
  {
    if points != [] {
      var front, p := points[..|points| - 1], points[|points| - 1];
      KeysSeenExact(keyOf, front);
      assert points == front + [p];
      forall k | k in KeysSeen(keyOf, points) ensures Group(keyOf, k, points) != [] {
        GroupStep(keyOf, k, front, p);
      }
    }
  }

  /** One record per key, in order of first occurrence, each over exactly the points of its key. */
  ghost predicate IsRollups(points: seq<Point>, g: int, rollups: seq<Rollup>) {
    var keys := KeysSeen(KeyOf(g), points);
    && |rollups| == |keys|
    && forall k :: 0 <= k < |keys| ==>
         var own := Group(KeyOf(g), keys[k], points); own != [] && rollups[k] == RollupOf(g, own)
  }

  ghost predicate Held(points: seq<Point>, g: int, held: map<string, Rollup>, k: string) {
    var own := Group(KeyOf(g), k, points);
    (k in held <==> own != []) && (own != [] ==> held[k] == RollupOf(g, own))
  }

  lemma RollupGrows(g: int, own: seq<Point>, p: Point)
    ensures own != [] ==> RollupOf(g, own + [p]) == RollupOf(g, own).(tally := Counted(TallyOf(own), p))
    ensures RollupOf(g, [] + [p]) == RollupOf(g, [p]) && TallyOf([p]) == Counted(EMPTY_TALLY, p)
  {
    assert (own + [p])[..|own|] == own;
    assert [] + [p] == [p] && [p][..0] == [];
  }

  function AddPoint(g: int, held: map<string, Rollup>, p: Point): map<string, Rollup> {
    var t, k := TripleOf(g)(p), KeyOf(g)(p);
    var r := if k in held then held[k] else Rollup(t.bucketStart, g, t.httpMethod, t.route, p.name, EMPTY_TALLY);
    held[k := r.(tally := Counted(r.tally, p))]
  }

  lemma AddKeepsHeld(points: seq<Point>, g: int, held: map<string, Rollup>, p: Point, k: string)
    requires Held(points, g, held, k)
    ensures Held(points + [p], g, AddPoint(g, held, p), k)
  {
    var own := Group(KeyOf(g), k, points);
    GroupStep(KeyOf(g), k, points, p);
    RollupGrows(g, own, p);
    if KeyOf(g)(p) == k {
      assert Group(KeyOf(g), k, points + [p]) == own + [p];
      if own == [] { assert own + [p] == [p]; }
    } else {
      assert Group(KeyOf(g), k, points + [p]) == own;
    }
  }

  /** The loop: a record per key so far, and the order the keys came in. */
  method Collect(points: seq<Point>, g: int) returns (held: map<string, Rollup>, order: seq<string>)
    ensures order == KeysSeen(KeyOf(g), points)
    ensures forall k :: Held(points, g, held, k)
  {
    held, order := map[], [];
    for i := 0 to |points|
      invariant order == KeysSeen(KeyOf(g), points[..i])
      invariant forall k :: Held(points[..i], g, held, k)
      invariant forall k :: k in order <==> k in held
    {
      var p := points[i];
      var t, key := TripleOf(g)(p), KeyOf(g)(p);
      ghost var before := held;
      forall k ensures Held(points[..i] + [p], g, AddPoint(g, before, p), k) {
        AddKeepsHeld(points[..i], g, before, p, k);
      }
      assert points[..i + 1] == points[..i] + [p] && points[..i + 1][..i] == points[..i];
      if key !in held {
        held := held[key := Rollup(t.bucketStart, g, t.httpMethod, t.route, p.name, EMPTY_TALLY)];
        order := order + [key];
      }
      var r := held[key];
      held := held[key := r.(tally := Counted(r.tally, p))];
      assert held == AddPoint(g, before, p);
    }
    assert points[..|points|] == points;
  }

  method AggregateRollups(points: seq<Point>, granularityMs: int) returns (rollups: seq<Rollup>)
    ensures IsRollups(points, if granularityMs > 0 then granularityMs else 60 * 60 * 1000, rollups)
  {
    var g := Granularity(granularityMs);
    var held, order := Collect(points, g);
    KeysSeenExact(KeyOf(g), points);
    forall k | 0 <= k < |order| ensures Held(points, g, held, order[k]) && order[k] in held { assert order[k] in order; }
    rollups := Values(held, order);
  }

  /** The values of a JavaScript Map, in insertion order. */
  function Values(held: map<string, Rollup>, order: seq<string>): (values: seq<Rollup>)
    requires forall i :: 0 <= i < |order| ==> order[i] in held
    ensures |values| == |order| && forall i :: 0 <= i < |order| ==> values[i] == held[order[i]]
  {
    if order == [] then [] else [held[order[0]]] + Values(held, order[1..])
  }

  // ---- What the records say -------------------------------------------------------------------------

  predicate PlainMethods(points: seq<Point>) { forall i | 0 <= i < |points| :: Free(points[i].httpMethod, '|') }

  function LabelOf(r: Rollup): Triple { Triple(r.bucketStart, r.httpMethod, r.route) }

  /** Each record is labelled with the triple of a point under its key. */
  lemma LabelHasKey(points: seq<Point>, g: int, rollups: seq<Rollup>, k: nat)
    requires IsRollups(points, g, rollups) && k < |rollups|
    ensures KeyText(LabelOf(rollups[k])) == KeysSeen(KeyOf(g), points)[k]
    ensures exists p :: p in points && TripleOf(g)(p) == LabelOf(rollups[k])
  {
    var key := KeysSeen(KeyOf(g), points)[k];
    var own := Group(KeyOf(g), key, points);
    assert own != [] && rollups[k] == RollupOf(g, own);
    GroupMember(KeyOf(g), key, points, own[0]);
    assert TripleOf(g)(own[0]) == LabelOf(rollups[k]);
  }

  /** Each record is named, as it is labelled, by the first point under its key. */
  lemma NamedByFirst(points: seq<Point>, g: int, rollups: seq<Rollup>, k: nat) returns (j: nat)
    requires IsRollups(points, g, rollups) && k < |rollups|
    ensures var key := KeysSeen(KeyOf(g), points)[k];
      && j < |points| && KeyOf(g)(points[j]) == key && (forall i :: 0 <= i < j ==> KeyOf(g)(points[i]) != key)
      && rollups[k].name == points[j].name && rollups[k].granularityMs == g
      && LabelOf(rollups[k]) == TripleOf(g)(points[j])
  {
    j := FirstOfGroup(KeyOf(g), KeysSeen(KeyOf(g), points)[k], points);
  }

  lemma {:induction false} FirstOfGroup<K>(keyOf: Point -> K, k: K, points: seq<Point>) returns (j: nat)
    requires Group(keyOf, k, points) != []
    ensures j < |points| && keyOf(points[j]) == k && (forall i :: 0 <= i < j ==> keyOf(points[i]) != k)
    ensures points[j] == Group(keyOf, k, points)[0]
    decreases |points|
  {
    if keyOf(points[0]) == k { return 0; }
    assert Group(keyOf, k, points) == Group(keyOf, k, points[1..]);
    var i := FirstOfGroup(keyOf, k, points[1..]);
    j := i + 1;
    forall n | 0 <= n < j ensures keyOf(points[n]) != k { assert n > 0 ==> points[n] == points[1..][n - 1]; }
  }

  /** No two records have one label, whatever the methods. */
  lemma LabelsDistinct(points: seq<Point>, g: int, rollups: seq<Rollup>, i: nat, j: nat)
    requires IsRollups(points, g, rollups) && i < j < |rollups|
    ensures LabelOf(rollups[i]) != LabelOf(rollups[j])
  {
    KeysSeenExact(KeyOf(g), points);
    LabelHasKey(points, g, rollups, i);
    LabelHasKey(points, g, rollups, j);
  }

  lemma {:induction false} SameGroups(points: seq<Point>, g: int, t: Triple)
    requires PlainMethods(points) && Free(t.httpMethod, '|')
    ensures Group(KeyOf(g), KeyText(t), points) == Group(TripleOf(g), t, points)
  {
    if points != [] {
      assert forall i :: 0 <= i < |points[1..]| ==> points[1..][i] == points[i + 1];
      SameGroups(points[1..], g, t);
      KeyTextUnique(TripleOf(g)(points[0]), t);
    }
  }

  /** For methods without a bar: exactly one record for every (bucket, method, route) that has points, and
      it tallies exactly those points. */
  lemma OneRollupPerTriple(points: seq<Point>, g: int, rollups: seq<Rollup>, t: Triple)
    requires IsRollups(points, g, rollups) && PlainMethods(points) && Free(t.httpMethod, '|')
    ensures (exists k :: 0 <= k < |rollups| && LabelOf(rollups[k]) == t) <==> Group(TripleOf(g), t, points) != []
    ensures forall k :: 0 <= k < |rollups| && LabelOf(rollups[k]) == t ==>
      rollups[k].tally == TallyOf(Group(TripleOf(g), t, points))
  {
    var keys := KeysSeen(KeyOf(g), points);
    KeysSeenExact(KeyOf(g), points);
    SameGroups(points, g, t);
    var own := Group(TripleOf(g), t, points);
    forall k | 0 <= k < |rollups| && LabelOf(rollups[k]) == t ensures rollups[k].tally == TallyOf(own) && own != [] {
      LabelHasKey(points, g, rollups, k);
    }
    if own != [] {
      GroupMember(TripleOf(g), t, points, own[0]);
      assert KeyText(t) in keys;
      var k :| 0 <= k < |keys| && keys[k] == KeyText(t);
      GroupMember(KeyOf(g), keys[k], points, own[0]);
      assert rollups[k] == RollupOf(g, own);
      assert LabelOf(rollups[k]) == t;
    }
  }

  // ---- Additivity -----------------------------------------------------------------------------------

  function MergeLeast(a: Option<real>, b: Option<real>): Option<real> { if b.None? then a else Least(a, b.value) }

  function MergeGreatest(a: Option<real>, b: Option<real>): Option<real> { if b.None? then a else Greatest(a, b.value) }

  /** Sums of the counts and the total, the lower minimum, the higher maximum. */
  function Merge(a: Tally, b: Tally): Tally {
    Tally(a.count + b.count, a.errorCount + b.errorCount, a.total + b.total, MergeLeast(a.min, b.min),
          MergeGreatest(a.max, b.max), a.c2xx + b.c2xx, a.c3xx + b.c3xx, a.c4xx + b.c4xx, a.c5xx + b.c5xx)
  }

  lemma MergeNothing(a: Tally)
    ensures Merge(a, EMPTY_TALLY) == a
  {
  }

  lemma TallyLast(points: seq<Point>, p: Point)
    ensures TallyOf(points + [p]) == Counted(TallyOf(points), p)
  {
    assert (points + [p])[..|points|] == points;
  }

  lemma ConcatStep(t: Tally, all: seq<Point>, front: seq<Point>, p: Point)
    requires TallyOf(all) == Merge(t, TallyOf(front))
    ensures TallyOf(all + [p]) == Merge(t, TallyOf(front + [p]))
  {
    var rest := TallyOf(front);
    TallyLast(all, p);
    TallyLast(front, p);
  }

  lemma {:induction false} TallyConcat(a: seq<Point>, b: seq<Point>)
    ensures TallyOf(a + b) == Merge(TallyOf(a), TallyOf(b))
  {
    if b == [] {
      assert a + b == a;
      MergeNothing(TallyOf(a));
    } else {
      var front, p := b[..|b| - 1], b[|b| - 1];
      assert b == front + [p] && a + b == (a + front) + [p];
      TallyConcat(a, front);
      ConcatStep(TallyOf(a), a + front, front, p);
    }
  }

  /** The record whose label has this key text. */
  function RecordOf(rollups: seq<Rollup>, key: string): (r: Option<Rollup>)
    ensures r.Some? ==> r.value in rollups && KeyText(LabelOf(r.value)) == key
    ensures r.None? ==> forall i :: 0 <= i < |rollups| ==> KeyText(LabelOf(rollups[i])) != key
  {
    if rollups == [] then None
    else if KeyText(LabelOf(rollups[0])) == key then Some(rollups[0])
    else RecordOf(rollups[1..], key)
  }

  /** The first record keeps its label, and takes the other's tally in. */
  function MergeRecords(a: Option<Rollup>, b: Option<Rollup>): Option<Rollup> {
    if a.None? then b else if b.None? then a else Some(a.value.(tally := Merge(a.value.tally, b.value.tally)))
  }

  lemma RecordIsGroup(points: seq<Point>, g: int, rollups: seq<Rollup>, key: string)
    requires IsRollups(points, g, rollups)
    ensures var own := Group(KeyOf(g), key, points);
      RecordOf(rollups, key) == if own == [] then None else Some(RollupOf(g, own))
  {
    var keys := KeysSeen(KeyOf(g), points);
    KeysSeenExact(KeyOf(g), points);
    forall k | 0 <= k < |rollups| ensures KeyText(LabelOf(rollups[k])) == keys[k] { LabelHasKey(points, g, rollups, k); }
    var own := Group(KeyOf(g), key, points);
    if own != [] {
      GroupMember(KeyOf(g), key, points, own[0]);
      var k :| 0 <= k < |keys| && keys[k] == key;
    } else {
      assert key !in keys;
    }
  }

  lemma RollupConcat(g: int, a: seq<Point>, b: seq<Point>)
    requires a != []
    ensures RollupOf(g, a + b) == RollupOf(g, a).(tally := Merge(TallyOf(a), TallyOf(b)))
  {
    TallyConcat(a, b);
  }

  /** Aggregating a concatenation is aggregating the parts and merging record by record: under each key the
      record of the whole is the merge of those of the parts, labelled and named by the first, and there is
      none exactly when neither part has one. */
  lemma RollupsAdd(a: seq<Point>, b: seq<Point>, g: int, ra: seq<Rollup>, rb: seq<Rollup>, rab: seq<Rollup>, key: string)
    requires IsRollups(a, g, ra) && IsRollups(b, g, rb) && IsRollups(a + b, g, rab)
    ensures RecordOf(rab, key) == MergeRecords(RecordOf(ra, key), RecordOf(rb, key))
  {
    RecordIsGroup(a, g, ra, key);
    RecordIsGroup(b, g, rb, key);
    RecordIsGroup(a + b, g, rab, key);
    GroupConcat(KeyOf(g), key, a, b);
    var first, second := Group(KeyOf(g), key, a), Group(KeyOf(g), key, b);
    if first == [] {
      assert first + second == second;
    } else if second == [] {
      assert first + second == first;
    } else {
      RollupConcat(g, first, second);
    }
  }
}
