/** The scheduling engine: from a weekly schedule and what is booked to the slots on offer. */
module Slots {
  import opened Wrappers

  // Instants are absolute, in microseconds; days are ordinals, of which day 1 is a Monday; times of
  // day are microseconds from midnight, and how they fall on instants is an arbitrary function.

  /** A half-open stretch of time. */
  datatype Interval = Interval(start: int, end: int)

  /** An interval that its constructor accepts. */
  type Span = iv: Interval | iv.start < iv.end witness Interval(0, 1)

  predicate Overlaps(a: Interval, b: Interval) { a.start < b.end && b.start < a.end }

  predicate Holds(iv: Interval, t: int) { iv.start <= t < iv.end }

  /** Two spans overlap if and only if they share an instant. */
  lemma OverlapIsShared(a: Span, b: Span)
    ensures Overlaps(a, b) <==> exists t :: Holds(a, t) && Holds(b, t)
  {
    if Overlaps(a, b) {
      var t := if a.start < b.start then b.start else a.start;
      assert Holds(a, t) && Holds(b, t);
    }
  }

  ghost predicate Covers(ivs: seq<Span>, t: int) {
    exists i :: 0 <= i < |ivs| && Holds(ivs[i], t)
  }

  // ------------------------------------------------------------------
  // Sorting
  // ------------------------------------------------------------------

  predicate SortedByStart(ivs: seq<Interval>) {
    forall i, j :: 0 <= i < j < |ivs| ==> ivs[i].start <= ivs[j].start
  }

  /** `iv` goes behind those that do not start later. */
  function Insert(sorted: seq<Span>, iv: Span): seq<Span> {
    if sorted == [] || iv.start < sorted[0].start then [iv] + sorted
    else [sorted[0]] + Insert(sorted[1..], iv)
  }

  function SortByStart(ivs: seq<Span>): seq<Span> {
    if ivs == [] then [] else Insert(SortByStart(ivs[..|ivs| - 1]), ivs[|ivs| - 1])
  }

  lemma ConsSorted(first: Span, rest: seq<Span>)
    requires SortedByStart(rest) && (rest != [] ==> first.start <= rest[0].start)
    ensures SortedByStart([first] + rest)
  {
  }

  lemma {:induction false} InsertSorts(sorted: seq<Span>, iv: Span)
    requires SortedByStart(sorted)
    ensures SortedByStart(Insert(sorted, iv)) && multiset(Insert(sorted, iv)) == multiset(sorted + [iv])
    ensures Insert(sorted, iv) != []
    ensures Insert(sorted, iv)[0] == if sorted == [] || iv.start < sorted[0].start then iv else sorted[0]
  {
    if sorted == [] || iv.start < sorted[0].start {
      ConsSorted(iv, sorted);
    } else {
      InsertSorts(sorted[1..], iv);
      ConsSorted(sorted[0], Insert(sorted[1..], iv));
      assert sorted == [sorted[0]] + sorted[1..];
    }
  }

  lemma {:induction false} Sorts(ivs: seq<Span>)
    ensures SortedByStart(SortByStart(ivs)) && multiset(SortByStart(ivs)) == multiset(ivs)
  {
    if ivs != [] {
      Sorts(ivs[..|ivs| - 1]);
      InsertSorts(SortByStart(ivs[..|ivs| - 1]), ivs[|ivs| - 1]);
      assert ivs == ivs[..|ivs| - 1] + [ivs[|ivs| - 1]];
    }
  }

  lemma {:induction false} SameCover(a: seq<Span>, b: seq<Span>, t: int)
    requires multiset(a) == multiset(b)
    ensures Covers(a, t) <==> Covers(b, t)
  {
    if Covers(a, t) {
      var i :| 0 <= i < |a| && Holds(a[i], t);
      assert a[i] in multiset(b);
    }
    if Covers(b, t) {
      var i :| 0 <= i < |b| && Holds(b[i], t);
      assert b[i] in multiset(a);
    }
  }

  // ------------------------------------------------------------------
  // Merging
  // ------------------------------------------------------------------

  /** In order, with a gap between any two. */
  predicate Apart(ivs: seq<Interval>) {
    forall i, j :: 0 <= i < j < |ivs| ==> ivs[i].end < ivs[j].start
  }

  lemma {:induction false} CoversSnoc(ivs: seq<Span>, iv: Span, t: int)
    ensures Covers(ivs + [iv], t) <==> Covers(ivs, t) || Holds(iv, t)
  {
    if Covers(ivs, t) {
      var i :| 0 <= i < |ivs| && Holds(ivs[i], t);
      assert Holds((ivs + [iv])[i], t);
    }
    if Holds(iv, t) {
      assert Holds((ivs + [iv])[|ivs|], t);
    }
  }

  /** One more interval, by start: it prolongs the last one, or begins a new one behind a gap. */
  function Absorb(merged: seq<Span>, iv: Span): seq<Span> {
    if merged != [] && iv.start <= merged[|merged| - 1].end then
      var last := merged[|merged| - 1];
      if iv.end > last.end then merged[..|merged| - 1] + [Interval(last.start, iv.end)] else merged
    else merged + [iv]
  }

  lemma {:induction false} AbsorbCovers(merged: seq<Span>, iv: Span, t: int)
    requires merged != [] ==> merged[|merged| - 1].start <= iv.start
    ensures Covers(Absorb(merged, iv), t) <==> Covers(merged, t) || Holds(iv, t)
  {
    if merged != [] && iv.start <= merged[|merged| - 1].end {
      var init, last := merged[..|merged| - 1], merged[|merged| - 1];
      assert merged == init + [last];
      CoversSnoc(init, last, t);
      if iv.end > last.end { CoversSnoc(init, Interval(last.start, iv.end), t); }
    } else {
      CoversSnoc(merged, iv, t);
    }
  }

  lemma AbsorbApart(merged: seq<Span>, iv: Span)
    requires Apart(merged) && (merged != [] ==> merged[|merged| - 1].start <= iv.start)
    ensures Apart(Absorb(merged, iv))
    ensures Absorb(merged, iv) != [] && Absorb(merged, iv)[|Absorb(merged, iv)| - 1].start <= iv.start
  {
  }

  /** What merging the first few in order has come to. */
  ghost predicate Merged(merged: seq<Span>, done: seq<Span>) {
    && Apart(merged)
    && (forall t :: Covers(merged, t) <==> Covers(done, t))
    && (merged == [] <==> done == [])
    && (merged != [] ==> merged[|merged| - 1].start <= done[|done| - 1].start)
  }

  lemma {:induction false} AbsorbMerges(merged: seq<Span>, done: seq<Span>, iv: Span)
    requires Merged(merged, done) && (done != [] ==> done[|done| - 1].start <= iv.start)
    ensures Merged(Absorb(merged, iv), done + [iv])
  {
    AbsorbApart(merged, iv);
    forall t ensures Covers(Absorb(merged, iv), t) <==> Covers(done + [iv], t) {
      AbsorbCovers(merged, iv, t);
      CoversSnoc(done, iv, t);
    }
  }

  function AbsorbAll(ordered: seq<Span>): seq<Span> {
    if ordered == [] then [] else Absorb(AbsorbAll(ordered[..|ordered| - 1]), ordered[|ordered| - 1])
  }

  lemma {:induction false} AbsorbAllMerges(ordered: seq<Span>)
    requires SortedByStart(ordered)
    ensures Merged(AbsorbAll(ordered), ordered)
  {
    if ordered != [] {
      var init, last := ordered[..|ordered| - 1], ordered[|ordered| - 1];
      AbsorbAllMerges(init);
      AbsorbMerges(AbsorbAll(init), init, last);
      assert ordered == init + [last];
    }
  }

  lemma {:induction false} MergedAll(intervals: seq<Span>)
    ensures var merged := AbsorbAll(SortByStart(intervals)); Apart(merged) && SameInstants(merged, intervals)
  {
    var ordered := SortByStart(intervals);
    Sorts(intervals);
    AbsorbAllMerges(ordered);
    forall t ensures Covers(AbsorbAll(ordered), t) <==> Covers(intervals, t) { SameCover(ordered, intervals, t); }
  }

  lemma AbsorbAllNext(ordered: seq<Span>, k: nat)
    requires k < |ordered|
    ensures AbsorbAll(ordered[..k + 1]) == Absorb(AbsorbAll(ordered[..k]), ordered[k])
  {
    assert ordered[..k + 1][..k] == ordered[..k];
  }

  /** The same instants, in order and apart. */
  method Merge(intervals: seq<Span>) returns (merged: seq<Span>)
    ensures Apart(merged) && SameInstants(merged, intervals)
  {
    var ordered := SortByStart(intervals);
    merged := [];
    for k := 0 to |ordered|
      invariant merged == AbsorbAll(ordered[..k])
    {
      var iv := ordered[k];
      AbsorbAllNext(ordered, k);
      if merged != [] && iv.start <= merged[|merged| - 1].end {
        var last := merged[|merged| - 1];
        if iv.end > last.end {
          merged := merged[..|merged| - 1] + [Interval(last.start, iv.end)];
        }
      } else {
        merged := merged + [iv];
      }
    }
    assert ordered[..|ordered|] == ordered;
    MergedAll(intervals);
  }

  ghost predicate SameInstants(a: seq<Span>, b: seq<Span>) {
    forall t :: Covers(a, t) <==> Covers(b, t)
  }

  /** The first of several apart starts with the first instant, and ends with the first gap. */
  lemma {:induction false} FirstOfApart(ivs: seq<Span>, t: int)
    requires Apart(ivs) && ivs != []
    ensures t <= ivs[0].end ==> (Covers(ivs, t) <==> Holds(ivs[0], t))
    ensures Covers(ivs, t) ==> ivs[0].start <= t
    ensures Covers(ivs[1..], t) <==> Covers(ivs, t) && ivs[0].end < t
  {
    if Holds(ivs[0], t) { assert Covers(ivs, t); }
    if Covers(ivs, t) {
      var i :| 0 <= i < |ivs| && Holds(ivs[i], t);
      if i > 0 { assert Holds(ivs[1..][i - 1], t); }
    }
    if Covers(ivs[1..], t) {
      var i :| 0 <= i < |ivs[1..]| && Holds(ivs[1..][i], t);
      assert Holds(ivs[i + 1], t);
    }
  }

  lemma {:induction false} FirstOutreaches(a: seq<Span>, b: seq<Span>)
    requires Apart(a) && Apart(b) && a != [] && SameInstants(a, b)
    ensures b != [] && b[0].start <= a[0].start && (a[0].start == b[0].start ==> b[0].end <= a[0].end)
  {
    var s := a[0].start;
    FirstOfApart(a, s);
    assert Covers(b, s);
    FirstOfApart(b, s);
    FirstOfApart(a, a[0].end);
    FirstOfApart(b, a[0].end);
    assert !Covers(b, a[0].end);
  }

  /** Which instants are covered determines the merged intervals: they do not depend on how they came about. */
  lemma {:induction false} MergedUnique(a: seq<Span>, b: seq<Span>)
    requires Apart(a) && Apart(b) && SameInstants(a, b)
    ensures a == b
  {
    if a != [] || b != [] {
      if a != [] { FirstOutreaches(a, b); }
      if b != [] { FirstOutreaches(b, a); }
      assert a[0] == b[0];
      forall t ensures Covers(a[1..], t) <==> Covers(b[1..], t) {
        FirstOfApart(a, t);
        FirstOfApart(b, t);
      }
      MergedUnique(a[1..], b[1..]);
    }
  }

  // ------------------------------------------------------------------
  // Availability
  // ------------------------------------------------------------------

  /** A working window of a day, by the clock on the wall. */
  datatype LocalRange = LocalRange(start: int, end: int)

  datatype DateOverride = DateOverride(date: int, ranges: seq<LocalRange>)

  /** The open ranges of each weekday, 0 for Monday; one that is absent is closed. */
  datatype Schedule = Schedule(byWeekday: map<int, seq<LocalRange>>, toInstant: (int, int) -> int)

  datatype AvailabilityError = DuplicateOverride(date: int)

  function RangesFor(schedule: Schedule, weekday: int): seq<LocalRange> {
    if weekday in schedule.byWeekday then schedule.byWeekday[weekday] else []
  }

  /** A range as an interval, unless a clock change leaves nothing of it. */
  function Localize(schedule: Schedule, day: int, range: LocalRange): Option<Span> {
    var start, end := schedule.toInstant(day, range.start), schedule.toInstant(day, range.end);
    if end <= start then None else Some(Interval(start, end))
  }

  ghost predicate DistinctDates(overrides: seq<DateOverride>) {
    forall i, j :: 0 <= i < j < |overrides| ==> overrides[i].date != overrides[j].date
  }

  /** The ranges that count on a day: those of its override, and without one those of its weekday. */
  ghost predicate RangeOn(schedule: Schedule, overrides: seq<DateOverride>, day: int, range: LocalRange) {
    if exists i :: 0 <= i < |overrides| && overrides[i].date == day
    then exists i :: 0 <= i < |overrides| && overrides[i].date == day && range in overrides[i].ranges
    else range in RangesFor(schedule, (day - 1) % 7)
  }

  ghost predicate OpenBy(schedule: Schedule, overrides: seq<DateOverride>, day: int, range: LocalRange, t: int) {
    RangeOn(schedule, overrides, day, range)
    && schedule.toInstant(day, range.start) <= t < schedule.toInstant(day, range.end)
  }

  /** Some range of some day of the window is open at the instant. */
  ghost predicate Open(schedule: Schedule, overrides: seq<DateOverride>, first: int, last: int, t: int) {
    exists day, range :: first <= day <= last && OpenBy(schedule, overrides, day, range, t)
  }

  ghost predicate IndexOf(byDate: map<int, DateOverride>, overrides: seq<DateOverride>) {
    && (forall i :: 0 <= i < |overrides| ==> overrides[i].date in byDate && byDate[overrides[i].date] == overrides[i])
    && (forall day :: day in byDate ==> byDate[day] in overrides && byDate[day].date == day)
  }

  /** Overrides by date; two for one date are an error. */
  method OverridesByDate(overrides: seq<DateOverride>) returns (r: Result<map<int, DateOverride>, AvailabilityError>)
    ensures r.Ok? <==> DistinctDates(overrides)
    ensures r.Ok? ==> IndexOf(r.value, overrides)
    ensures r.Err? ==> exists i, j :: 0 <= i < j < |overrides| && overrides[i].date == overrides[j].date == r.error.date
  {
    var indexed := map[];
    for k := 0 to |overrides|
      invariant DistinctDates(overrides[..k]) && IndexOf(indexed, overrides[..k])
    {
      var override := overrides[k];
      assert overrides[..k + 1] == overrides[..k] + [override];
      if override.date in indexed {
        var i :| 0 <= i < k && overrides[..k][i] == indexed[override.date];
        assert overrides[i].date == overrides[k].date;
        return Err(DuplicateOverride(override.date));
      }
      indexed := indexed[override.date := override];
    }
    assert overrides[..|overrides|] == overrides;
    r := Ok(indexed);
  }

  /** The ranges of one day. */
  function DayRanges(schedule: Schedule, byDate: map<int, DateOverride>, day: int): seq<LocalRange> {
    if day in byDate then byDate[day].ranges else RangesFor(schedule, (day - 1) % 7)
  }

  lemma {:induction false} DayRangesCount(
    schedule: Schedule, overrides: seq<DateOverride>, byDate: map<int, DateOverride>, day: int, range: LocalRange)
    requires DistinctDates(overrides) && IndexOf(byDate, overrides)
    ensures range in DayRanges(schedule, byDate, day) <==> RangeOn(schedule, overrides, day, range)
  {
    if day in byDate {
      var i :| 0 <= i < |overrides| && overrides[i] == byDate[day];
      assert overrides[i].date == day;
    }
  }

  /** Exactly the localized ranges. */
  ghost predicate Localized(schedule: Schedule, day: int, ranges: seq<LocalRange>, before: seq<Span>, ivs: seq<Span>) {
    forall t :: Covers(ivs, t) <==>
      Covers(before, t)
      || exists range ::
          range in ranges && schedule.toInstant(day, range.start) <= t < schedule.toInstant(day, range.end)
  }

  lemma {:induction false} LocalizeOne(
    schedule: Schedule, day: int, done: seq<LocalRange>, range: LocalRange, before: seq<Span>, ivs: seq<Span>)
    requires Localized(schedule, day, done, before, ivs)
    ensures var one := Localize(schedule, day, range);
            Localized(schedule, day, done + [range], before, if one.Some? then ivs + [one.value] else ivs)
  {
    var one := Localize(schedule, day, range);
    var more := if one.Some? then ivs + [one.value] else ivs;
    forall t ensures Covers(more, t) <==>
        Covers(before, t)
        || exists r :: r in done + [range] && schedule.toInstant(day, r.start) <= t < schedule.toInstant(day, r.end)
    {
      if one.Some? { CoversSnoc(ivs, one.value, t); }
      if schedule.toInstant(day, range.start) <= t < schedule.toInstant(day, range.end) {
        assert range in done + [range];
      }
      if r :| r in done && schedule.toInstant(day, r.start) <= t < schedule.toInstant(day, r.end) {
        assert r in done + [range];
      }
    }
  }

  lemma {:induction false} OneMoreDay(
    schedule: Schedule, overrides: seq<DateOverride>, byDate: map<int, DateOverride>, first: int, day: int,
    before: seq<Span>, ivs: seq<Span>)
    requires DistinctDates(overrides) && IndexOf(byDate, overrides) && first <= day
    requires forall t :: Covers(before, t) <==> Open(schedule, overrides, first, day - 1, t)
    requires Localized(schedule, day, DayRanges(schedule, byDate, day), before, ivs)
    ensures forall t :: Covers(ivs, t) <==> Open(schedule, overrides, first, day, t)
  {
    forall t ensures Covers(ivs, t) <==> Open(schedule, overrides, first, day, t) {
      if Open(schedule, overrides, first, day, t) {
        var d, range :| first <= d <= day && OpenBy(schedule, overrides, d, range, t);
        if d < day {
          assert Open(schedule, overrides, first, day - 1, t);
        } else {
          DayRangesCount(schedule, overrides, byDate, day, range);
        }
      }
      if Open(schedule, overrides, first, day - 1, t) {
        var d, range :| first <= d <= day - 1 && OpenBy(schedule, overrides, d, range, t);
        assert first <= d <= day && OpenBy(schedule, overrides, d, range, t);
      }
      forall range | range in DayRanges(schedule, byDate, day)
                     && schedule.toInstant(day, range.start) <= t < schedule.toInstant(day, range.end)
        ensures OpenBy(schedule, overrides, day, range, t)
      {
        DayRangesCount(schedule, overrides, byDate, day, range);
      }
    }
  }

  /** The availability of a window of days: the instants that are open, in order and apart. */
  method AvailableIntervals(schedule: Schedule, overrides: seq<DateOverride>, first: int, last: int)
    returns (r: Result<seq<Span>, AvailabilityError>)
    ensures r.Ok? <==> DistinctDates(overrides)
    ensures r.Ok? ==> Apart(r.value) && forall t :: Covers(r.value, t) <==> Open(schedule, overrides, first, last, t)
  {
    var indexed := OverridesByDate(overrides);
    if indexed.Err? {
      return Err(indexed.error);
    }
    var byDate := indexed.value;
    var intervals: seq<Span> := [];
    var day := first;
    while day <= last
      invariant first <= day && (day <= last + 1 || day == first)
      invariant forall t :: Covers(intervals, t) <==> Open(schedule, overrides, first, day - 1, t)
      decreases last - day
    {
      ghost var before := intervals;
      var ranges := DayRanges(schedule, byDate, day);
      for k := 0 to |ranges|
        invariant Localized(schedule, day, ranges[..k], before, intervals)
      {
        LocalizeOne(schedule, day, ranges[..k], ranges[k], before, intervals);
        assert ranges[..k + 1] == ranges[..k] + [ranges[k]];
        var localized := Localize(schedule, day, ranges[k]);
        if localized.Some? {
          intervals := intervals + [localized.value];
        }
      }
      assert ranges[..|ranges|] == ranges;
      OneMoreDay(schedule, overrides, byDate, first, day, before, intervals);
      day := day + 1;
    }
    var merged := Merge(intervals);
    forall t ensures Covers(merged, t) <==> Open(schedule, overrides, first, last, t) {
      assert Covers(intervals, t) <==> Open(schedule, overrides, first, day - 1, t);
    }
    r := Ok(merged);
  }

  // ------------------------------------------------------------------
  // Slots
  // ------------------------------------------------------------------

  datatype Buffer = Buffer(before: nat, after: nat)

  /** A meeting that can be booked; `increment` defaults to the duration. */
  datatype EventType = EventType(
    duration: int, buffer: Buffer, increment: Option<int>, minNotice: nat, maxAdvance: int)
  {
    predicate Valid() {
      duration > 0 && (increment.Some? ==> increment.value > 0) && maxAdvance > 0
    }

    function Increment(): int { if increment.Some? then increment.value else duration }
  }

  /** The slot and the padding it asks for. */
  function Buffered(slot: Interval, buffer: Buffer): Interval {
    Interval(slot.start - buffer.before, slot.end + buffer.after)
  }

  predicate Free(iv: Interval, busy: seq<Span>) {
    forall b :: b in busy ==> !Overlaps(iv, b)
  }

  /** Whether the interval conflicts with anything busy. */
  method HasConflict(candidate: Interval, busy: seq<Span>) returns (conflict: bool)
    ensures conflict <==> !Free(candidate, busy)
  {
    conflict := exists b :: b in busy && Overlaps(candidate, b);
  }

  function Place(from: int, increment: int, k: nat): int { from + k * increment }

  /** May be offered, wherever it starts: in the booking window, and free with its buffers. */
  predicate Bookable(slot: Interval, busy: seq<Span>, e: EventType, now: int) {
    && slot.end == slot.start + e.duration
    && now + e.minNotice <= slot.start <= now + e.maxAdvance
    && Free(Buffered(slot, e.buffer), busy)
  }

  /** Starts `k` increments into the interval, and ends inside it. */
  predicate PlacedAt(slot: Interval, within: Interval, e: EventType, k: nat) {
    slot.start == Place(within.start, e.Increment(), k) && slot.start + e.duration <= within.end
  }

  /** Exactly what should be offered. */
  ghost predicate Offered(slot: Interval, available: seq<Span>, busy: seq<Span>, e: EventType, now: int) {
    Bookable(slot, busy, e, now) && exists i: nat, k: nat :: i < |available| && PlacedAt(slot, available[i], e, k)
  }

  lemma PlaceNext(from: int, increment: int, k: nat)
    ensures Place(from, increment, k + 1) == Place(from, increment, k) + increment
    ensures Place(from, increment, 0) == from
  {
  }

  lemma {:induction false} PlaceGrows(from: int, increment: int, j: nat, k: nat)
    requires increment > 0 && j <= k
    ensures Place(from, increment, j) <= Place(from, increment, k)
    decreases k
  {
    if j < k {
      PlaceGrows(from, increment, j, k - 1);
      PlaceNext(from, increment, k - 1);
    }
  }

  /** The slots found in the first intervals, and at the first `k` places of the next one. */
  ghost predicate Found(
    slots: set<Interval>, available: seq<Span>, i: nat, k: nat, busy: seq<Span>, e: EventType, now: int)
    requires i <= |available|
  {
    forall slot :: slot in slots <==>
      && Bookable(slot, busy, e, now)
      && (|| (exists j: nat, m: nat :: j < i && PlacedAt(slot, available[j], e, m))
          || (i < |available| && exists m: nat :: m < k && PlacedAt(slot, available[i], e, m)))
  }

  lemma {:induction false} FoundNext(
    slots: set<Interval>, more: set<Interval>, available: seq<Span>, i: nat, k: nat, busy: seq<Span>, e: EventType,
    now: int)
    requires e.Valid() && i < |available| && Found(slots, available, i, k, busy, e, now)
    requires var start := Place(available[i].start, e.Increment(), k);
             var slot := Interval(start, start + e.duration);
             slot.end <= available[i].end && more == if Bookable(slot, busy, e, now) then slots + {slot} else slots
    ensures Found(more, available, i, k + 1, busy, e, now)
  {
    var start := Place(available[i].start, e.Increment(), k);
    assert PlacedAt(Interval(start, start + e.duration), available[i], e, k);
    forall slot: Interval, m: nat | Bookable(slot, busy, e, now) && m < k + 1 && PlacedAt(slot, available[i], e, m)
      ensures slot in more
    {
      if m == k { assert slot == Interval(start, start + e.duration); }
    }
  }

  lemma {:induction false} FoundAll(
    slots: set<Interval>, available: seq<Span>, i: nat, k: nat, busy: seq<Span>, e: EventType, now: int)
    requires e.Valid() && i < |available| && Found(slots, available, i, k, busy, e, now)
    requires Place(available[i].start, e.Increment(), k) + e.duration > available[i].end
    ensures Found(slots, available, i + 1, 0, busy, e, now)
  {
    forall slot: Interval, m: nat | PlacedAt(slot, available[i], e, m) ensures m < k {
      if k <= m { PlaceGrows(available[i].start, e.Increment(), k, m); }
    }
  }

  predicate StartsIncrease(slots: seq<Interval>) {
    forall i, j :: 0 <= i < j < |slots| ==> slots[i].start < slots[j].start
  }

  predicate SameLength(slots: set<Interval>) {
    forall a, b :: a in slots && b in slots ==> a.end - a.start == b.end - b.start
  }

  lemma {:induction false} FirstExists(slots: set<Interval>) returns (first: Interval)
    requires slots != {}
    ensures first in slots && forall x :: x in slots ==> first.start <= x.start
    decreases |slots|
  {
    first :| first in slots;
    if slots != {first} {
      var rest := FirstExists(slots - {first});
      if rest.start < first.start { first := rest; }
    }
  }

  /** The slots are those sorted so far, and the rest, which start later. */
  ghost predicate PartSorted(slots: set<Interval>, sorted: seq<Interval>, rest: set<Interval>) {
    && StartsIncrease(sorted)
    && (forall slot :: slot in slots <==> slot in sorted || slot in rest)
    && (forall i, x :: 0 <= i < |sorted| && x in rest ==> sorted[i].start < x.start)
  }

  lemma {:induction false} TakeFirst(slots: set<Interval>, sorted: seq<Interval>, rest: set<Interval>, first: Interval)
    requires PartSorted(slots, sorted, rest) && SameLength(slots)
    requires first in rest && forall x :: x in rest ==> first.start <= x.start
    ensures PartSorted(slots, sorted + [first], rest - {first})
  {
    forall x | x in rest - {first} ensures first.start < x.start {
      assert x in slots && first in slots;
    }
  }

  method SortSlots(slots: set<Interval>) returns (sorted: seq<Interval>)
    requires SameLength(slots)
    ensures StartsIncrease(sorted) && forall slot :: slot in sorted <==> slot in slots
  {
    var rest := slots;
    sorted := [];
    while rest != {}
      invariant PartSorted(slots, sorted, rest)
      decreases |rest|
    {
      ghost var least := FirstExists(rest);
      var first :| first in rest && forall x :: x in rest ==> first.start <= x.start;
      TakeFirst(slots, sorted, rest, first);
      sorted, rest := sorted + [first], rest - {first};
    }
  }

  /** The slots on offer: exactly those that should be, once each, by start. */
  method AvailableSlots(available: seq<Span>, busy: seq<Span>, e: EventType, now: int) returns (slots: seq<Interval>)
    requires e.Valid()
    ensures StartsIncrease(slots)
    ensures forall slot :: slot in slots <==> Offered(slot, available, busy, e, now)
  {
    var earliest, latest := now + e.minNotice, now + e.maxAdvance;
    var found: set<Interval> := {};
    for i := 0 to |available|
      invariant Found(found, available, i, 0, busy, e, now)
    {
      var start := available[i].start;
      ghost var k: nat := 0;
      while start + e.duration <= available[i].end
        invariant start == Place(available[i].start, e.Increment(), k)
        invariant Found(found, available, i, k, busy, e, now)
        decreases available[i].end - start
      {
        ghost var before := found;
        if earliest <= start <= latest {
          var conflict := HasConflict(Interval(start - e.buffer.before, start + e.duration + e.buffer.after), busy);
          if !conflict {
            found := found + {Interval(start, start + e.duration)};
          }
        }
        FoundNext(before, found, available, i, k, busy, e, now);
        PlaceNext(available[i].start, e.Increment(), k);
        start, k := start + e.Increment(), k + 1;
      }
      FoundAll(found, available, i, k, busy, e, now);
    }
    slots := SortSlots(found);
  }

  /** Where the availability came from does not matter, nor the order of what is busy. */
  lemma {:induction false} OfferedFromAny(
    slot: Interval, a: seq<Span>, b: seq<Span>, busy: seq<Span>, taken: seq<Span>, e: EventType, now: int)
    requires Apart(a) && Apart(b) && SameInstants(a, b) && (forall x :: x in busy <==> x in taken)
    ensures Offered(slot, a, busy, e, now) <==> Offered(slot, b, taken, e, now)
  {
    MergedUnique(a, b);
  }

  /** Every instant of a slot on offer is available, and no instant of it with its buffers is busy. */
  lemma {:induction false} OfferIsOpen(
    slot: Interval, available: seq<Span>, busy: seq<Span>, e: EventType, now: int, t: int)
    requires e.Valid() && Offered(slot, available, busy, e, now)
    ensures Holds(slot, t) ==> Covers(available, t)
    ensures Holds(Buffered(slot, e.buffer), t) ==> !Covers(busy, t)
  {
    var i: nat, k: nat :| i < |available| && PlacedAt(slot, available[i], e, k);
    PlaceGrows(available[i].start, e.Increment(), 0, k);
    if Holds(slot, t) { assert Holds(available[i], t); }
    if Covers(busy, t) {
      var j :| 0 <= j < |busy| && Holds(busy[j], t);
      assert busy[j] in busy;
    }
  }

  // ------------------------------------------------------------------
  // A host's bookings, over every run of offers, bookings and cancellations
  // ------------------------------------------------------------------

  datatype Booking = Booking(slot: Span, e: EventType)

  /** Somebody takes a slot that is on offer, of any event type of the host, or a booking is cancelled. */
  datatype Deal =
    | Book(booking: Booking, available: seq<Span>, external: seq<Span>, now: int)
    | Cancel(i: nat)

  function SlotsOf(bookings: seq<Booking>): (slots: seq<Span>)
    ensures |slots| == |bookings| && forall i :: 0 <= i < |slots| ==> slots[i] == bookings[i].slot
  {
    seq(|bookings|, i requires 0 <= i < |bookings| => bookings[i].slot)
  }

  /** The bookings that stand after these deals, oldest first, if each deal was possible in its turn. */
  ghost function Standing(deals: seq<Deal>): Option<seq<Booking>> {
    if deals == [] then Some([])
    else
      match Standing(deals[..|deals| - 1])
      case None => None
      case Some(bookings) =>
        match deals[|deals| - 1]
        case Book(b, available, external, now) =>
          if b.e.Valid() && Offered(b.slot, available, SlotsOf(bookings) + external, b.e, now)
          then Some(bookings + [b]) else None
        case Cancel(i) => if i < |bookings| then Some(bookings[..i] + bookings[i + 1..]) else None
  }

  /** The younger booking keeps its own buffers from the older one. */
  predicate KeepsClear(older: Booking, younger: Booking) {
    !Overlaps(Buffered(younger.slot, younger.e.buffer), older.slot)
  }

  ghost predicate AllClear(bookings: seq<Booking>) {
    forall i, j :: 0 <= i < j < |bookings| ==> KeepsClear(bookings[i], bookings[j])
  }

  lemma {:induction false} BookKeepsClear(
    bookings: seq<Booking>, b: Booking, available: seq<Span>, external: seq<Span>, now: int)
    requires AllClear(bookings) && Offered(b.slot, available, SlotsOf(bookings) + external, b.e, now)
    ensures AllClear(bookings + [b])
  {
    forall i | 0 <= i < |bookings| ensures KeepsClear(bookings[i], b) {
      assert (SlotsOf(bookings) + external)[i] == bookings[i].slot;
    }
  }

  lemma {:induction false} CancelKeepsClear(bookings: seq<Booking>, i: nat)
    requires AllClear(bookings) && i < |bookings|
    ensures AllClear(bookings[..i] + bookings[i + 1..])
  {
    var rest := bookings[..i] + bookings[i + 1..];
    forall a, b | 0 <= a < b < |rest| ensures KeepsClear(rest[a], rest[b]) {
      assert rest[a] == bookings[if a < i then a else a + 1] && rest[b] == bookings[if b < i then b else b + 1];
    }
  }

  lemma {:induction false} StandingClear(deals: seq<Deal>)
    ensures Standing(deals).Some? ==> AllClear(Standing(deals).value)
  {
    if deals != [] && Standing(deals).Some? {
      var init := deals[..|deals| - 1];
      StandingClear(init);
      match deals[|deals| - 1]
      case Book(b, available, external, now) => BookKeepsClear(Standing(init).value, b, available, external, now);
      case Cancel(i) => CancelKeepsClear(Standing(init).value, i);
    }
  }

  /** A host is never booked twice at one instant, whatever is offered, booked and cancelled. */
  lemma {:induction false} NeverDoubleBooked(deals: seq<Deal>, bookings: seq<Booking>, i: nat, j: nat)
    requires Standing(deals) == Some(bookings) && i < |bookings| && j < |bookings| && i != j
    ensures !Overlaps(bookings[i].slot, bookings[j].slot)
    ensures forall t :: Holds(bookings[i].slot, t) ==> !Holds(bookings[j].slot, t)
  {
    StandingClear(deals);
    assert KeepsClear(bookings[if i < j then i else j], bookings[if i < j then j else i]);
  }

  /** The time between two bookings is at least the buffer that the younger one has on that side. */
  lemma {:induction false} RoomOfTheYounger(deals: seq<Deal>, bookings: seq<Booking>, older: nat, younger: nat)
    requires Standing(deals) == Some(bookings) && older < younger < |bookings|
    ensures var a, b := bookings[older], bookings[younger];
      if a.slot.start < b.slot.start then b.slot.start - a.slot.end >= b.e.buffer.before
      else a.slot.start - b.slot.end >= b.e.buffer.after
  {
    StandingClear(deals);
    assert KeepsClear(bookings[older], bookings[younger]);
  }

  /** Every two bookings of this event's buffers are at least this far apart, in every run. */
  ghost predicate RoomAlways(buffer: Buffer, room: int) {
    forall deals: seq<Deal>, bookings: seq<Booking>, i: nat, j: nat ::
      && Standing(deals) == Some(bookings) && i < |bookings| && j < |bookings|
      && bookings[i].e.buffer == buffer == bookings[j].e.buffer && bookings[i].slot.start < bookings[j].slot.start
      ==> bookings[j].slot.start - bookings[i].slot.end >= room
  }

  function Hourly(buffer: Buffer, gap: nat): EventType {
    EventType(60, buffer, Some(60 + gap), 0, 60 + gap)
  }

  function Shop(gap: nat): seq<Span> { [Interval(0, 120 + gap)] }

  /** One booking on an empty day. */
  lemma {:induction false} BookFirst(buffer: Buffer, gap: nat, k: nat) returns (deals: seq<Deal>)
    requires k <= 1
    ensures var start := Place(0, 60 + gap, k);
            Standing(deals) == Some([Booking(Interval(start, start + 60), Hourly(buffer, gap))])
  {
    var e, start := Hourly(buffer, gap), Place(0, 60 + gap, k);
    PlaceNext(0, 60 + gap, 0);
    var b := Booking(Interval(start, start + 60), e);
    deals := [Book(b, Shop(gap), [], 0)];
    assert deals[..0] == [] && SlotsOf([]) + [] == [];
    assert PlacedAt(b.slot, Shop(gap)[0], e, k);
    assert Offered(b.slot, Shop(gap), SlotsOf([]) + [], e, 0);
    assert [] + [b] == [b];
  }

  /** Then a second one, which sees only the buffer on its side. */
  lemma {:induction false} BookSecond(buffer: Buffer, gap: nat, k: nat, deals: seq<Deal>, first: Booking)
    returns (more: seq<Deal>)
    requires k <= 1 && Standing(deals) == Some([first])
    requires var other := Place(0, 60 + gap, 1 - k); first == Booking(Interval(other, other + 60), Hourly(buffer, gap))
    requires gap == if k == 1 then buffer.before else buffer.after
    ensures var start := Place(0, 60 + gap, k);
            Standing(more) == Some([first, Booking(Interval(start, start + 60), Hourly(buffer, gap))])
  {
    var e, start := Hourly(buffer, gap), Place(0, 60 + gap, k);
    PlaceNext(0, 60 + gap, 0);
    var b := Booking(Interval(start, start + 60), e);
    var deal := Book(b, Shop(gap), [], 0);
    more := deals + [deal];
    assert more[..|more| - 1] == deals;
    assert SlotsOf([first]) + [] == [first.slot];
    assert PlacedAt(b.slot, Shop(gap)[0], e, k);
    assert Offered(b.slot, Shop(gap), SlotsOf([first]) + [], e, 0);
    assert [first] + [b] == [first, b];
  }

  /**
    Two bookings exactly one buffer apart: that before the slot when they are booked in order of time,
    else that after it.
   */
  lemma {:induction false} BookedClose(buffer: Buffer, inOrder: bool) returns (deals: seq<Deal>, i: nat, j: nat)
    ensures Standing(deals).Some? && |Standing(deals).value| == 2 && i < 2 && j < 2
    ensures var bs := Standing(deals).value;
      && bs[i].e.buffer == buffer == bs[j].e.buffer
      && bs[i].slot.start < bs[j].slot.start
      && bs[j].slot.start - bs[i].slot.end == if inOrder then buffer.before else buffer.after
  {
    var gap := if inOrder then buffer.before else buffer.after;
    var k := if inOrder then 1 else 0;
    PlaceNext(0, 60 + gap, 0);
    deals := BookFirst(buffer, gap, 1 - k);
    deals := BookSecond(buffer, gap, k, deals, Standing(deals).value[0]);
    i, j := if inOrder then 0 else 1, if inOrder then 1 else 0;
  }

  /**
    The breathing room that buffers guarantee whatever the order of booking is the lesser of the two:
    a booking's own buffers are not reserved once it stands, only its slot is.
   */
  lemma {:induction false} RoomAlwaysIff(buffer: Buffer, room: int)
    ensures RoomAlways(buffer, room) <==> room <= buffer.before && room <= buffer.after
  {
    if RoomAlways(buffer, room) {
      var deals, i, j := BookedClose(buffer, true);
      assert Standing(deals) == Some(Standing(deals).value);
      var deals', i', j' := BookedClose(buffer, false);
      assert Standing(deals') == Some(Standing(deals').value);
    }
    if room <= buffer.before && room <= buffer.after {
      forall deals: seq<Deal>, bookings: seq<Booking>, i: nat, j: nat |
        && Standing(deals) == Some(bookings) && i < |bookings| && j < |bookings|
        && bookings[i].e.buffer == buffer == bookings[j].e.buffer && bookings[i].slot.start < bookings[j].slot.start
        ensures bookings[j].slot.start - bookings[i].slot.end >= room
      {
        RoomOfTheYounger(deals, bookings, if i < j then i else j, if i < j then j else i);
      }
    }
  }
}
