/** The hourly rollup job over the stored points and rollups: `rollupHour`, the boot catch-up, and why
    repeating hours, in any order, changes nothing but row ids. */
module RollupStore {
  import opened Ordering
  import opened Grouping
  import opened Metrics
  import opened Rollups

  /** Rollup documents by id. */
  datatype Rows = Rows(rows: map<nat, Rollup>, nextId: nat)

  /** What `recordRollups` finds rows by. */
  datatype Slot = Slot(bucketStart: int, granularityMs: int, httpMethod: string, route: string)

  function SlotOf(r: Rollup): Slot { Slot(r.bucketStart, r.granularityMs, r.httpMethod, r.route) }

  /** Two records share a slot when they are of the same width, start, method and route. */
  lemma SameSlotIff(r: Rollup, s: Rollup)
    ensures SlotOf(r) == SlotOf(s) <==>
      r.granularityMs == s.granularityMs && r.bucketStart == s.bucketStart && r.httpMethod == s.httpMethod && r.route == s.route
  {
  }

  ghost predicate ValidRows(st: Rows) { forall id :: id in st.rows ==> id < st.nextId }

  function RecordOne(st: Rows, r: Rollup): Rows {
    var kept := map id | id in st.rows && SlotOf(st.rows[id]) != SlotOf(r) :: st.rows[id];
    Rows(kept[st.nextId := r], st.nextId + 1)
  }

  function Record(st: Rows, rollups: seq<Rollup>): Rows {
    if rollups == [] then st else RecordOne(Record(st, rollups[..|rollups| - 1]), rollups[|rollups| - 1])
  }

  // ---- Hours ----------------------------------------------------------------------------------------

  function InHour(hourStart: int): Point -> bool { (p: Point) => hourStart <= p.ts <= hourStart + HOUR_MS - 1 }

  function LatestFirst(): (Point, Point) -> bool { (p: Point, q: Point) => q.ts <= p.ts }

  /** `points({ from, to })`: the hour's points, latest first. */
  function HourPoints(points: seq<Point>, hourStart: int): seq<Point> {
    StableSort(LatestFirst(), Select(InHour(hourStart), points))
  }

  /** Every timestamp lies in the window of exactly one hour, the one its bucket starts at. */
  lemma HoursPartition(p: Point, hourStart: int)
    requires Multiple(hourStart, HOUR_MS)
    ensures InHour(hourStart)(p) <==> StartOf(p.ts, HOUR_MS) == hourStart
  {
    StartOfExact(p.ts, HOUR_MS, hourStart);
  }

  lemma HourPointsLatestFirst(points: seq<Point>, hourStart: int, i: nat, j: nat)
    requires i < j < |HourPoints(points, hourStart)|
    ensures HourPoints(points, hourStart)[i].ts >= HourPoints(points, hourStart)[j].ts
  {
    SortSorted(LatestFirst(), Select(InHour(hourStart), points));
    assert LatestFirst()(HourPoints(points, hourStart)[i], HourPoints(points, hourStart)[j]);
  }

  lemma HourPointsMember(points: seq<Point>, hourStart: int, p: Point)
    ensures p in HourPoints(points, hourStart) <==> p in points && InHour(hourStart)(p)
  {
    SortMembers(LatestFirst(), Select(InHour(hourStart), points));
    SelectMember(InHour(hourStart), points, p);
  }

  /** The records of an hour: what `aggregateRollups` yields for its points. */
  function HourRollups(points: seq<Point>, hourStart: int): seq<Rollup> {
    var own := HourPoints(points, hourStart);
    RollupsFor(own, KeysSeen(KeyOf(HOUR_MS), own))
  }

  function RollupsFor(points: seq<Point>, keys: seq<string>): (rs: seq<Rollup>)
    ensures |rs| <= |keys|
  {
    if keys == [] then []
    else
      var own := Group(KeyOf(HOUR_MS), keys[|keys| - 1], points);
      RollupsFor(points, keys[..|keys| - 1]) + (if own == [] then [] else [RollupOf(HOUR_MS, own)])
  }

  lemma {:induction false} RollupsForExact(points: seq<Point>, keys: seq<string>)
    requires forall k :: k in keys ==> Group(KeyOf(HOUR_MS), k, points) != []
    ensures |RollupsFor(points, keys)| == |keys|
    ensures forall i :: 0 <= i < |keys| ==> RollupsFor(points, keys)[i] == RollupOf(HOUR_MS, Group(KeyOf(HOUR_MS), keys[i], points))
  {
    if keys != [] {
      var n := |keys| - 1;
      assert keys == keys[..n] + [keys[n]];
      RollupsForExact(points, keys[..n]);
    }
  }

  lemma HourRollupsAreRollups(points: seq<Point>, hourStart: int)
    ensures IsRollups(HourPoints(points, hourStart), HOUR_MS, HourRollups(points, hourStart))
  {
    var own := HourPoints(points, hourStart);
    KeysSeenExact(KeyOf(HOUR_MS), own);
    RollupsForExact(own, KeysSeen(KeyOf(HOUR_MS), own));
    var keys := KeysSeen(KeyOf(HOUR_MS), own);
    forall k | 0 <= k < |keys| ensures Group(KeyOf(HOUR_MS), keys[k], own) != [] { assert keys[k] in keys; }
  }

  /** The specification fixes the list. */
  lemma RollupsUnique(points: seq<Point>, hourStart: int, rollups: seq<Rollup>)
    requires IsRollups(HourPoints(points, hourStart), HOUR_MS, rollups)
    ensures rollups == HourRollups(points, hourStart)
  {
    HourRollupsAreRollups(points, hourStart);
  }

  function RollupHourOf(st: Rows, points: seq<Point>, hourStart: int): Rows {
    if HourPoints(points, hourStart) == [] then st else Record(st, HourRollups(points, hourStart))
  }

  function RunHours(st: Rows, points: seq<Point>, hours: seq<int>): Rows {
    if hours == [] then st else RollupHourOf(RunHours(st, points, hours[..|hours| - 1]), points, hours[|hours| - 1])
  }

  /** Start of the most recently completed hour. */
  function PreviousHourStart(now: int): int { StartOf(now, HOUR_MS) - HOUR_MS }

  function CatchupHours(base: int, n: nat): seq<int> {
    if n == 0 then [] else CatchupHours(base, n - 1) + [base - (n - 1) * HOUR_MS]
  }

  /** The last `n` completed hours: those that have ended by now, and began less than `n` + 1 hours ago. */
  lemma {:induction false} CatchupHoursExact(now: int, n: nat, h: int)
    ensures |CatchupHours(PreviousHourStart(now), n)| == n
    ensures h in CatchupHours(PreviousHourStart(now), n)
      <==> Multiple(h, 3_600_000) && h + 3_600_000 <= now < h + (n + 1) * 3_600_000
  {
    var start := StartOf(now, HOUR_MS);
    StartOfExact(now, HOUR_MS, start);
    if n > 0 {
      CatchupHoursExact(now, n - 1, h);
      LastHour(now, n, h);
    } else {
      assert CatchupHours(PreviousHourStart(now), n) == [];
    }
  }

  lemma LastHour(now: int, n: nat, h: int)
    requires n > 0
    ensures h == PreviousHourStart(now) - (n - 1) * HOUR_MS
      <==> Multiple(h, HOUR_MS) && h + n * HOUR_MS <= now < h + (n + 1) * HOUR_MS
  {
    StartOfExact(now, HOUR_MS, h + n * HOUR_MS);
    ShiftedMultiple(h, n);
  }

  lemma ShiftedMultiple(h: int, n: int)
    ensures Multiple(h, HOUR_MS) <==> Multiple(h + n * HOUR_MS, HOUR_MS)
  {
    if k: int :| h == k * HOUR_MS { assert h + n * HOUR_MS == (k + n) * HOUR_MS; }
    if k: int :| h + n * HOUR_MS == k * HOUR_MS { assert h == (k - n) * HOUR_MS; }
  }

  /** Latest hour first, one hour apart. */
  lemma {:induction false} CatchupHoursInOrder(base: int, n: nat, i: nat)
    requires i < n
    ensures |CatchupHours(base, n)| == n && CatchupHours(base, n)[i] == base - i * 3_600_000
  {
    if i < n - 1 { CatchupHoursInOrder(base, n - 1, i); } else if n > 1 { CatchupHoursInOrder(base, n - 1, 0); }
  }

  class GatewayMetricsRollupService {
    var points: seq<Point>
    var rollups: Rows

    constructor (points: seq<Point>, rollups: Rows)
      ensures this.points == points && this.rollups == rollups
    {
      this.points, this.rollups := points, rollups;
    }

    method RecordRollups(rs: seq<Rollup>)
      modifies this`rollups
      ensures rollups == Record(old(rollups), rs)
    {
      for i := 0 to |rs|
        invariant rollups == Record(old(rollups), rs[..i])
      {
        var r := rs[i];
        assert rs[..i + 1][..i] == rs[..i];
        ghost var before := rollups;
        rollups := rollups.(rows := map id | id in rollups.rows && SlotOf(rollups.rows[id]) != SlotOf(r) :: rollups.rows[id]);
        rollups := Rows(rollups.rows[rollups.nextId := r], rollups.nextId + 1);
        assert rollups == RecordOne(before, r);
      }
      assert rs[..|rs|] == rs;
    }

    method RollupHour(hourStart: int)
      modifies this`rollups
      ensures rollups == RollupHourOf(old(rollups), points, hourStart)
    {
      var own := StableSort(LatestFirst(), Select(InHour(hourStart), points));
      if |own| == 0 { return; }
      var rs := AggregateRollups(own, HOUR_MS);
      RollupsUnique(points, hourStart, rs);
      RecordRollups(rs);
    }

    /** The boot catch-up, if the lock is ours. */
    method RunCatchup(now: int, hours: nat, acquired: bool)
      modifies this`rollups
      ensures rollups == if acquired then RunHours(old(rollups), points, CatchupHours(PreviousHourStart(now), hours))
                         else old(rollups)
    {
      if !acquired { return; }
      RollupHours(CatchupHours(PreviousHourStart(now), hours));
    }

    method RollupHours(hours: seq<int>)
      modifies this`rollups
      ensures rollups == RunHours(old(rollups), points, hours)
    {
      for i := 0 to |hours|
        invariant rollups == RunHours(old(rollups), points, hours[..i])
      {
        assert hours[..i + 1] == hours[..i] + [hours[i]];
        RollupHour(hours[i]);
      }
      assert hours[..|hours|] == hours;
    }
  }

  // ---- What the store shows -------------------------------------------------------------------------

  /** Exactly one row of the slot, and it is `r`. */
  ghost predicate ShowsOnly(st: Rows, slot: Slot, r: Rollup) {
    exists id :: id in st.rows && st.rows[id] == r && SlotOf(r) == slot
      && forall other :: other in st.rows && SlotOf(st.rows[other]) == slot ==> other == id
  }

  /** The same rows of the slot, ids included. */
  ghost predicate SameAt(a: Rows, b: Rows, slot: Slot) {
    && (forall id :: id in a.rows && SlotOf(a.rows[id]) == slot ==> id in b.rows && b.rows[id] == a.rows[id])
    && (forall id :: id in b.rows && SlotOf(b.rows[id]) == slot ==> id in a.rows && a.rows[id] == b.rows[id])
  }

  predicate Among(rollups: seq<Rollup>, slot: Slot) { exists i | 0 <= i < |rollups| :: SlotOf(rollups[i]) == slot }

  lemma RecordOneEffect(st: Rows, r: Rollup, slot: Slot)
    requires ValidRows(st)
    ensures ValidRows(RecordOne(st, r))
    ensures slot == SlotOf(r) ==> ShowsOnly(RecordOne(st, r), slot, r)
    ensures slot != SlotOf(r) ==> SameAt(st, RecordOne(st, r), slot)
  {
    var after := RecordOne(st, r);
    assert after.rows[st.nextId] == r;
  }

  /** Recording records with distinct slots leaves exactly those under their slots. */
  lemma {:induction false} RecordEffect(st: Rows, rollups: seq<Rollup>, slot: Slot)
    requires ValidRows(st)
    requires forall i, j :: 0 <= i < j < |rollups| ==> SlotOf(rollups[i]) != SlotOf(rollups[j])
    ensures ValidRows(Record(st, rollups))
    ensures forall i :: 0 <= i < |rollups| && SlotOf(rollups[i]) == slot ==> ShowsOnly(Record(st, rollups), slot, rollups[i])
    ensures !Among(rollups, slot) ==> SameAt(st, Record(st, rollups), slot)
  {
    if rollups != [] {
      var n := |rollups| - 1;
      var before := Record(st, rollups[..n]);
      RecordEffect(st, rollups[..n], slot);
      RecordOneEffect(before, rollups[n], slot);
      forall i | 0 <= i < n && SlotOf(rollups[i]) == slot ensures ShowsOnly(Record(st, rollups), slot, rollups[i]) {
        assert rollups[..n][i] == rollups[i];
      }
      if !Among(rollups, slot) {
        assert SlotOf(rollups[n]) != slot;
        forall i | 0 <= i < n ensures SlotOf(rollups[..n][i]) != slot { assert rollups[..n][i] == rollups[i]; }
      }
    }
  }

  /** The records of an hour have distinct slots, all of that hour. */
  lemma HourSlots(points: seq<Point>, hourStart: int)
    requires Multiple(hourStart, HOUR_MS)
    ensures var rs := HourRollups(points, hourStart);
      && (forall i, j :: 0 <= i < j < |rs| ==> SlotOf(rs[i]) != SlotOf(rs[j]))
      && (forall i :: 0 <= i < |rs| ==> rs[i].bucketStart == hourStart && rs[i].granularityMs == HOUR_MS)
  {
    var own, rs := HourPoints(points, hourStart), HourRollups(points, hourStart);
    HourRollupsAreRollups(points, hourStart);
    forall i, j | 0 <= i < j < |rs| ensures SlotOf(rs[i]) != SlotOf(rs[j]) {
      Rollups.LabelsDistinct(own, HOUR_MS, rs, i, j);
    }
    forall i | 0 <= i < |rs| ensures rs[i].bucketStart == hourStart && rs[i].granularityMs == HOUR_MS {
      LabelHasKey(own, HOUR_MS, rs, i);
      var p :| p in own && TripleOf(HOUR_MS)(p) == LabelOf(rs[i]);
      HourPointsMember(points, hourStart, p);
      HoursPartition(p, hourStart);
    }
  }

  function SetOf(hours: seq<int>): set<int> { set h | h in hours }

  /** What the store shows for a slot once a set of hours has been rolled up. */
  ghost predicate Settled(st: Rows, after: Rows, points: seq<Point>, hours: set<int>, slot: Slot) {
    var rs := HourRollups(points, slot.bucketStart);
    if slot.bucketStart in hours && Among(rs, slot)
    then exists i :: 0 <= i < |rs| && SlotOf(rs[i]) == slot && ShowsOnly(after, slot, rs[i])
    else SameAt(st, after, slot)
  }

  lemma HourEffect(st: Rows, points: seq<Point>, hourStart: int, slot: Slot)
    requires ValidRows(st) && Multiple(hourStart, HOUR_MS)
    ensures ValidRows(RollupHourOf(st, points, hourStart))
    ensures var rs, after := HourRollups(points, hourStart), RollupHourOf(st, points, hourStart);
      && (forall i :: 0 <= i < |rs| && SlotOf(rs[i]) == slot ==> ShowsOnly(after, slot, rs[i]))
      && (!Among(rs, slot) ==> SameAt(st, after, slot))
  {
    HourSlots(points, hourStart);
    RecordEffect(st, HourRollups(points, hourStart), slot);
  }

  /** The store after rolling up hours, in any order and any number of times, depends only on which hours:
      under the slots of those hours exactly the hour's records, everything else untouched. */
  lemma {:induction false} HoursSettle(st: Rows, points: seq<Point>, hours: seq<int>, slot: Slot)
    requires ValidRows(st) && forall h :: h in hours ==> Multiple(h, HOUR_MS)
    ensures ValidRows(RunHours(st, points, hours))
    ensures Settled(st, RunHours(st, points, hours), points, SetOf(hours), slot)
  {
    if hours != [] {
      var n := |hours| - 1;
      assert hours == hours[..n] + [hours[n]];
      HoursSettle(st, points, hours[..n], slot);
      SettleOneMore(st, RunHours(st, points, hours[..n]), points, SetOf(hours[..n]), hours[n], slot);
      assert SetOf(hours) == SetOf(hours[..n]) + {hours[n]};
    }
  }

  lemma SettleOneMore(st: Rows, mid: Rows, points: seq<Point>, hours: set<int>, h: int, slot: Slot)
    requires ValidRows(mid) && Multiple(h, HOUR_MS) && Settled(st, mid, points, hours, slot)
    ensures ValidRows(RollupHourOf(mid, points, h))
    ensures Settled(st, RollupHourOf(mid, points, h), points, hours + {h}, slot)
  {
    var after := RollupHourOf(mid, points, h);
    var rs := HourRollups(points, slot.bucketStart);
    HourEffect(mid, points, h, slot);
    HourSlots(points, h);
    if h != slot.bucketStart {
      assert !Among(HourRollups(points, h), slot);
      if slot.bucketStart in hours && Among(rs, slot) {
        var i :| 0 <= i < |rs| && SlotOf(rs[i]) == slot && ShowsOnly(mid, slot, rs[i]);
      }
    } else if Among(rs, slot) {
      var i :| 0 <= i < |rs| && SlotOf(rs[i]) == slot;
      assert ShowsOnly(after, slot, rs[i]);
    }
  }

  /** Up to ids: no row of the slot, or rows showing the same single record, on both sides; or untouched
      rows on both sides. */
  ghost predicate SameUpToIds(a: Rows, b: Rows, slot: Slot) {
    SameAt(a, b, slot) || exists r :: ShowsOnly(a, slot, r) && ShowsOnly(b, slot, r)
  }

  /** So two schedules over the same hours leave the same store up to row ids; in particular running any
      hour again changes nothing. */
  lemma SchedulesAgree(st: Rows, points: seq<Point>, one: seq<int>, two: seq<int>, slot: Slot)
    requires ValidRows(st) && SetOf(one) == SetOf(two)
    requires forall h :: h in one ==> Multiple(h, HOUR_MS)
    ensures SameUpToIds(RunHours(st, points, one), RunHours(st, points, two), slot)
  {
    forall h | h in two ensures Multiple(h, HOUR_MS) { assert h in SetOf(two); }
    HoursSettle(st, points, one, slot);
    HoursSettle(st, points, two, slot);
    var a, b := RunHours(st, points, one), RunHours(st, points, two);
    var rs := HourRollups(points, slot.bucketStart);
    if slot.bucketStart in SetOf(one) && Among(rs, slot) {
      HourSlotsIfMultiple(points, slot.bucketStart, one);
      var i :| 0 <= i < |rs| && SlotOf(rs[i]) == slot && ShowsOnly(a, slot, rs[i]);
      var j :| 0 <= j < |rs| && SlotOf(rs[j]) == slot && ShowsOnly(b, slot, rs[j]);
      assert i == j;
    }
  }

  lemma HourSlotsIfMultiple(points: seq<Point>, hourStart: int, hours: seq<int>)
    requires hourStart in hours && forall h :: h in hours ==> Multiple(h, HOUR_MS)
    ensures forall i, j :: 0 <= i < j < |HourRollups(points, hourStart)| ==>
      SlotOf(HourRollups(points, hourStart)[i]) != SlotOf(HourRollups(points, hourStart)[j])
  {
    HourSlots(points, hourStart);
  }
}
