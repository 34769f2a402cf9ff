/**
  The two-week demand plan: which bookings are intended, for which business and day, and under which
  guest address. Dates are day ordinals, ordinal 1 being a Monday; draws of the seeded generator are
  arbitrary inputs.
 */
module TrafficPlan {
  import Apportion
  import opened Text

  // ------------------------------------------------------------------
  // Guest addresses
  // ------------------------------------------------------------------

  const DOMAIN := "@guests.sim.test"

  predicate IsAlphanumeric(c: char) { IsDigit(c) || IsLower(c) || IsUpper(c) }

  function Dotted(name: string): string {
    seq(|name|, i requires 0 <= i < |name| => if IsAlphanumeric(name[i]) then ToLower(name[i]) else '.')
  }

  function StripDotsLeft(s: string): string {
    if s != [] && s[0] == '.' then StripDotsLeft(s[1..]) else s
  }

  function StripDotsRight(s: string): string {
    if s != [] && s[|s| - 1] == '.' then StripDotsRight(s[..|s| - 1]) else s
  }

  function Handle(name: string): string { StripDotsRight(StripDotsLeft(Dotted(name))) }

  function GuestEmail(name: string, number: nat): string {
    Join(Handle(name), '.', Decimal(number)) + DOMAIN
  }

  lemma AfterLastDot(a: string, m: nat, b: string, n: nat)
    requires Join(a, '.', Decimal(m)) == Join(b, '.', Decimal(n))
    ensures Decimal(m) == Decimal(n)
  {
    var s, x, y := Join(a, '.', Decimal(m)), Decimal(m), Decimal(n);
    assert s[|a|] == '.' && s[|b|] == '.';
    assert forall i :: |a| < i < |s| ==> s[i] == x[i - |a| - 1];
    assert forall i :: |b| < i < |s| ==> s[i] == y[i - |b| - 1];
    if |a| == |b| {
      assert x == s[|a| + 1..] == y;
    }
  }

  lemma DropDomain(s: string, t: string, domain: string)
    requires s + domain == t + domain
    ensures s == t
  {
    assert |s| == |t|;
    assert s == (s + domain)[..|s|] && t == (t + domain)[..|t|];
  }

  /** The sequence number can be recovered from the address, whatever the names are. */
  lemma EmailsDistinct(a: string, m: nat, b: string, n: nat)
    ensures GuestEmail(a, m) == GuestEmail(b, n) ==> m == n
  {
    if GuestEmail(a, m) == GuestEmail(b, n) {
      DropDomain(Join(Handle(a), '.', Decimal(m)), Join(Handle(b), '.', Decimal(n)), DOMAIN);
      AfterLastDot(Handle(a), m, Handle(b), n);
      DecimalInjective(m, n);
    }
  }

  // ------------------------------------------------------------------
  // The calendar
  // ------------------------------------------------------------------

  const WINDOW_DAYS := 14

  /** Monday is 0. */
  function Weekday(day: int): (w: nat)
    ensures w < 7
  {
    (day + 6) % 7
  }

  predicate IsWorkday(day: int) { Weekday(day) < 5 }

  function WeekdayWeight(day: int): (w: real)
    requires IsWorkday(day)
    ensures w > 0.0
  {
    match Weekday(day)
    case 0 => 1.25
    case 1 => 1.20
    case 2 => 1.05
    case 3 => 1.00
    case _ => 0.70
  }

  /** The workdays among the `n` days from `start`, in order. */
  function Workdays(start: int, n: nat): (days: seq<int>)
    ensures forall i :: 0 <= i < |days| ==> start <= days[i] < start + n && IsWorkday(days[i])
    ensures forall i, j :: 0 <= i < j < |days| ==> days[i] < days[j]
  {
    if n == 0 then []
    else
      var before := Workdays(start, n - 1);
      if IsWorkday(start + n - 1) then before + [start + n - 1] else before
  }

  /** Workdays among the days of week zero up to day `x`. */
  function WorkdaysBefore(x: nat): nat {
    5 * (x / 7) + if x % 7 < 5 then x % 7 else 5
  }

  lemma WeekdayAfter(start: int, n: nat)
    ensures Weekday(start + n) == (Weekday(start) + n) % 7
  {
  }

  lemma WorkdaysBeforeNext(x: nat)
    ensures WorkdaysBefore(x + 1) == WorkdaysBefore(x) + if x % 7 < 5 then 1 else 0
  {
  }

  lemma {:induction false} WorkdayCount(start: int, n: nat)
    ensures |Workdays(start, n)| == WorkdaysBefore(Weekday(start) + n) - WorkdaysBefore(Weekday(start))
  {
    if n > 0 {
      WorkdayCount(start, n - 1);
      WeekdayAfter(start, n - 1);
      WorkdaysBeforeNext(Weekday(start) + n - 1);
    }
  }

  /** Two weeks hold ten workdays, whatever day they start on. */
  lemma TenWorkdays(start: int)
    ensures |Workdays(start, WINDOW_DAYS)| == 10
  {
    WorkdayCount(start, WINDOW_DAYS);
    var w := Weekday(start);
    assert (w + 14) / 7 == w / 7 + 2 && (w + 14) % 7 == w % 7;
  }

  // ------------------------------------------------------------------
  // Weights
  // ------------------------------------------------------------------

  ghost predicate AllWorkdays(days: seq<int>) {
    forall i :: 0 <= i < |days| ==> IsWorkday(days[i])
  }

  function DayWeights(days: seq<int>): (r: seq<real>)
    requires AllWorkdays(days)
    ensures |r| == |days| && forall i :: 0 <= i < |r| ==> r[i] > 0.0
  {
    seq(|days|, i requires 0 <= i < |days| => WeekdayWeight(days[i]))
  }

  function Normalised(weights: seq<real>): (r: seq<real>)
    requires Apportion.Sum(weights) > 0.0 && forall i :: 0 <= i < |weights| ==> weights[i] > 0.0
    ensures |r| == |weights| && forall i :: 0 <= i < |r| ==> r[i] > 0.0
  {
    seq(|weights|, i requires 0 <= i < |weights| => weights[i] / Apportion.Sum(weights))
  }

  lemma {:induction false} PositiveSum(weights: seq<real>)
    requires forall i :: 0 <= i < |weights| ==> weights[i] > 0.0
    ensures Apportion.Sum(weights) >= 0.0
    ensures weights != [] ==> Apportion.Sum(weights) > 0.0
  {
    if weights != [] {
      PositiveSum(weights[..|weights| - 1]);
    }
  }

  // ------------------------------------------------------------------
  // The blueprint
  // ------------------------------------------------------------------

  datatype Place = Place(slug: string, day: int)

  /** `counts[k]` places on `days[k]`, day after day. */
  function DayBlock(slug: string, days: seq<int>, counts: seq<int>): seq<Place>
    requires |days| == |counts|
    decreases |counts|
  {
    if counts == [] then []
    else
      var n := |counts| - 1;
      DayBlock(slug, days[..n], counts[..n]) + Repeat(Place(slug, days[n]), counts[n])
  }

  function Repeat<T>(x: T, n: int): (r: seq<T>)
    ensures |r| == if n > 0 then n else 0
    ensures forall i :: 0 <= i < |r| ==> r[i] == x
  {
    if n <= 0 then [] else seq(n, _ => x)
  }

  /** One block of places a business, in the order of the businesses. */
  function Blueprint(slugs: seq<string>, days: seq<int>, splits: seq<seq<int>>): seq<Place>
    requires |slugs| == |splits| && forall b :: 0 <= b < |splits| ==> |splits[b]| == |days|
    decreases |slugs|
  {
    if slugs == [] then []
    else
      var n := |slugs| - 1;
      Blueprint(slugs[..n], days, splits[..n]) + DayBlock(slugs[n], days, splits[n])
  }

  // ------------------------------------------------------------------
  // The plan
  // ------------------------------------------------------------------

  datatype FollowUp = NoFollowUp | Cancel | Reschedule

  /** What the generator draws for one booking. */
  datatype Draw = Draw(locale: string, name: string, followUp: FollowUp, eventKey: string, timezone: string)

  datatype PlannedBooking = PlannedBooking(
    number: nat, slug: string, eventKey: string, day: int, locale: string, guestName: string,
    guestEmail: string, guestTimezone: string, followUp: FollowUp)

  function Planned(number: nat, place: Place, draw: Draw): PlannedBooking {
    PlannedBooking(number, place.slug, draw.eventKey, place.day, draw.locale, draw.name,
      GuestEmail(draw.name, number), draw.timezone, draw.followUp)
  }

  /** The plan fills the places in order, numbering from one. */
  ghost predicate Fills(plan: seq<PlannedBooking>, places: seq<Place>, draws: nat -> Draw) {
    && |plan| == |places|
    && forall i :: 0 <= i < |plan| ==> plan[i] == Planned(i + 1, places[i], draws(i + 1))
  }

  function Target(perWeek: int): nat {
    if perWeek <= 0 then 0 else perWeek * 2
  }

  /** How one business's bookings are spread over the days. */
  ghost predicate Spread(split: seq<int>, days: seq<int>, perWeek: int, shuffled: seq<nat>)
    requires AllWorkdays(days) && days != []
  {
    PositiveSum(DayWeights(days));
    PositiveSum(Normalised(DayWeights(days)));
    if perWeek <= 0 then split == seq(|days|, _ => 0)
    else Apportion.LargestRemainder(
      split, Target(perWeek), Apportion.Shares(Target(perWeek), Normalised(DayWeights(days))), shuffled)
  }

  lemma SharesNonNegative(total: nat, weights: seq<real>)
    requires Apportion.Sum(weights) > 0.0 && forall i :: 0 <= i < |weights| ==> weights[i] > 0.0
    ensures forall i :: 0 <= i < |weights| ==> Apportion.Shares(total, weights)[i] >= 0.0
  {
    forall i | 0 <= i < |weights| ensures Apportion.Shares(total, weights)[i] >= 0.0 {
      Apportion.NonNegativeShare(total as real, weights[i], Apportion.Sum(weights));
    }
  }

  lemma {:induction false} SpreadSums(split: seq<int>, days: seq<int>, perWeek: int, shuffled: seq<nat>)
    requires AllWorkdays(days) && days != [] && Spread(split, days, perWeek, shuffled)
    ensures |split| == |days| && Apportion.SumInt(split) == Target(perWeek)
    ensures forall i :: 0 <= i < |split| ==> split[i] >= 0
  {
    if perWeek <= 0 {
      Apportion.ZeroSum(|days|);
    } else {
      PositiveSum(DayWeights(days));
      PositiveSum(Normalised(DayWeights(days)));
      SharesNonNegative(Target(perWeek), Normalised(DayWeights(days)));
    }
  }

  lemma {:induction false} DayBlockLength(slug: string, days: seq<int>, counts: seq<int>)
    requires |days| == |counts| && forall i :: 0 <= i < |counts| ==> counts[i] >= 0
    ensures |DayBlock(slug, days, counts)| == Apportion.SumInt(counts)
    decreases |counts|
  {
    if counts != [] {
      DayBlockLength(slug, days[..|counts| - 1], counts[..|counts| - 1]);
    }
  }

  /** Every place of a block is its business's, on one of the days, and day `d` has `counts[d]` of them. */
  lemma {:induction false} DayBlockPlaces(slug: string, days: seq<int>, counts: seq<int>)
    requires |days| == |counts|
    ensures forall i :: 0 <= i < |DayBlock(slug, days, counts)| ==>
      DayBlock(slug, days, counts)[i].slug == slug && DayBlock(slug, days, counts)[i].day in days
    decreases |counts|
  {
    if counts != [] {
      var n := |counts| - 1;
      DayBlockPlaces(slug, days[..n], counts[..n]);
      assert days[n] in days;
    }
  }

  /** How many of the places are on `day`. */
  function OnDay(places: seq<Place>, day: int): nat {
    if places == [] then 0 else OnDay(places[..|places| - 1], day) + if places[|places| - 1].day == day then 1 else 0
  }

  lemma {:induction false} OnDayConcat(a: seq<Place>, b: seq<Place>, day: int)
    ensures OnDay(a + b, day) == OnDay(a, day) + OnDay(b, day)
  {
    if b == [] {
      assert a + b == a;
    } else {
      OnDayConcat(a, b[..|b| - 1], day);
      assert (a + b)[..|a + b| - 1] == a + b[..|b| - 1];
    }
  }

  lemma {:induction false} OnDayNone(places: seq<Place>, day: int)
    requires forall i :: 0 <= i < |places| ==> places[i].day != day
    ensures OnDay(places, day) == 0
  {
    if places != [] {
      OnDayNone(places[..|places| - 1], day);
    }
  }

  lemma {:induction false} OnDayRepeat(place: Place, n: nat)
    ensures OnDay(Repeat(place, n), place.day) == n
  {
    if n > 0 {
      OnDayRepeat(place, n - 1);
      assert Repeat(place, n)[..n - 1] == Repeat(place, n - 1);
    }
  }

  lemma DayBlockLast(slug: string, days: seq<int>, counts: seq<int>, day: int)
    requires |days| == |counts| > 0
    ensures var n := |days| - 1;
      OnDay(DayBlock(slug, days, counts), day)
        == OnDay(DayBlock(slug, days[..n], counts[..n]), day) + OnDay(Repeat(Place(slug, days[n]), counts[n]), day)
  {
    var n := |days| - 1;
    OnDayConcat(DayBlock(slug, days[..n], counts[..n]), Repeat(Place(slug, days[n]), counts[n]), day);
  }

  lemma DayBlockAbsent(slug: string, days: seq<int>, counts: seq<int>, day: int)
    requires |days| == |counts| && day !in days
    ensures OnDay(DayBlock(slug, days, counts), day) == 0
  {
    DayBlockPlaces(slug, days, counts);
    OnDayNone(DayBlock(slug, days, counts), day);
  }

  ghost predicate Increasing(days: seq<int>) {
    forall i, j :: 0 <= i < j < |days| ==> days[i] < days[j]
  }

  lemma IncreasingInit(days: seq<int>)
    requires Increasing(days) && days != []
    ensures Increasing(days[..|days| - 1]) && days[|days| - 1] !in days[..|days| - 1]
  {
  }

  lemma RepeatElsewhere(place: Place, n: int, day: int)
    requires place.day != day
    ensures OnDay(Repeat(place, n), day) == 0
  {
    OnDayNone(Repeat(place, n), day);
  }

  lemma LastDayCounts(slug: string, days: seq<int>, counts: seq<int>)
    requires |days| == |counts| > 0 && counts[|days| - 1] >= 0 && Increasing(days)
    ensures OnDay(DayBlock(slug, days, counts), days[|days| - 1]) == counts[|days| - 1]
  {
    var n := |days| - 1;
    DayBlockLast(slug, days, counts, days[n]);
    IncreasingInit(days);
    DayBlockAbsent(slug, days[..n], counts[..n], days[n]);
    OnDayRepeat(Place(slug, days[n]), counts[n]);
  }

  lemma {:induction false} DayBlockCounts(slug: string, days: seq<int>, counts: seq<int>, d: nat)
    requires |days| == |counts| && d < |days| && counts[d] >= 0
    requires Increasing(days)
    ensures OnDay(DayBlock(slug, days, counts), days[d]) == counts[d]
    decreases |counts|
  {
    var n := |counts| - 1;
    if d == n {
      LastDayCounts(slug, days, counts);
    } else {
      IncreasingInit(days);
      DayBlockCounts(slug, days[..n], counts[..n], d);
      DayBlockLast(slug, days, counts, days[d]);
      RepeatElsewhere(Place(slug, days[n]), counts[n], days[d]);
    }
  }

  ghost predicate Splits(splits: seq<seq<int>>, n: nat, total: nat) {
    forall b :: 0 <= b < |splits| ==>
      |splits[b]| == n && Apportion.SumInt(splits[b]) == total && forall i :: 0 <= i < n ==> splits[b][i] >= 0
  }

  lemma OneMore(n: nat, total: nat)
    ensures (n + 1) * total == n * total + total
  {
  }

  lemma {:induction false} BlueprintLength(slugs: seq<string>, days: seq<int>, splits: seq<seq<int>>, total: nat)
    requires |slugs| == |splits| && Splits(splits, |days|, total)
    ensures |Blueprint(slugs, days, splits)| == |slugs| * total
    decreases |slugs|
  {
    if slugs != [] {
      var n := |slugs| - 1;
      BlueprintLength(slugs[..n], days, splits[..n], total);
      DayBlockLength(slugs[n], days, splits[n]);
      OneMore(n, total);
    }
  }

  /** Business `b` owns `total` consecutive places from `b * total` on, and they are its block. */
  lemma {:induction false} BlueprintBlock(slugs: seq<string>, days: seq<int>, splits: seq<seq<int>>, total: nat, b: nat)
    returns (before: seq<Place>, after: seq<Place>)
    requires |slugs| == |splits| && Splits(splits, |days|, total) && b < |slugs|
    ensures |before| == b * total && |DayBlock(slugs[b], days, splits[b])| == total
    ensures Blueprint(slugs, days, splits) == before + DayBlock(slugs[b], days, splits[b]) + after
    decreases |slugs|
  {
    var n := |slugs| - 1;
    DayBlockLength(slugs[b], days, splits[b]);
    if b == n {
      before, after := Blueprint(slugs[..n], days, splits[..n]), [];
      BlueprintLength(slugs[..n], days, splits[..n], total);
    } else {
      before, after := BlueprintBlock(slugs[..n], days, splits[..n], total, b);
      after := after + DayBlock(slugs[n], days, splits[n]);
    }
  }

  lemma {:induction false} BlueprintPlaces(slugs: seq<string>, days: seq<int>, splits: seq<seq<int>>)
    requires |slugs| == |splits| && forall b :: 0 <= b < |splits| ==> |splits[b]| == |days|
    ensures forall i :: 0 <= i < |Blueprint(slugs, days, splits)| ==> Blueprint(slugs, days, splits)[i].day in days
    decreases |slugs|
  {
    if slugs != [] {
      var n := |slugs| - 1;
      BlueprintPlaces(slugs[..n], days, splits[..n]);
      DayBlockPlaces(slugs[n], days, splits[n]);
    }
  }

  // ------------------------------------------------------------------
  // Building the plan
  // ------------------------------------------------------------------

  lemma FillsNext(plan: seq<PlannedBooking>, places: seq<Place>, place: Place, draws: nat -> Draw)
    requires Fills(plan, places, draws)
    ensures Fills(plan + [Planned(|plan| + 1, place, draws(|plan| + 1))], places + [place], draws)
  {
  }

  lemma RepeatNext<T>(before: seq<T>, x: T, n: nat)
    ensures before + Repeat(x, n) + [x] == before + Repeat(x, n + 1)
  {
  }

  lemma DayBlockNext(slug: string, days: seq<int>, counts: seq<int>, d: nat)
    requires d < |days| == |counts|
    ensures DayBlock(slug, days[..d + 1], counts[..d + 1])
         == DayBlock(slug, days[..d], counts[..d]) + Repeat(Place(slug, days[d]), counts[d])
  {
    assert days[..d + 1][..d] == days[..d] && counts[..d + 1][..d] == counts[..d];
  }

  lemma BlueprintNext(slugs: seq<string>, days: seq<int>, splits: seq<seq<int>>, b: nat, split: seq<int>)
    requires b < |slugs| && |splits| == b && |split| == |days|
    requires forall i :: 0 <= i < |splits| ==> |splits[i]| == |days|
    ensures Blueprint(slugs[..b + 1], days, splits + [split])
         == Blueprint(slugs[..b], days, splits) + DayBlock(slugs[b], days, split)
  {
    assert slugs[..b + 1][..b] == slugs[..b] && (splits + [split])[..b] == splits;
  }

  /** The bookings of one day of one business. */
  method PlanDay(plan0: seq<PlannedBooking>, ghost places: seq<Place>, place: Place, count: int, draws: nat -> Draw)
    returns (plan: seq<PlannedBooking>)
    requires Fills(plan0, places, draws)
    ensures Fills(plan, places + Repeat(place, count), draws)
  {
    plan := plan0;
    assert places + Repeat(place, 0) == places;
    for c := 0 to if count > 0 then count else 0
      invariant Fills(plan, places + Repeat(place, c), draws)
    {
      FillsNext(plan, places + Repeat(place, c), place, draws);
      RepeatNext(places, place, c);
      plan := plan + [Planned(|plan| + 1, place, draws(|plan| + 1))];
    }
  }

  /** The bookings of one business, day after day. */
  method PlanBusiness(plan0: seq<PlannedBooking>, ghost places: seq<Place>, slug: string, days: seq<int>,
      counts: seq<int>, draws: nat -> Draw)
    returns (plan: seq<PlannedBooking>)
    requires Fills(plan0, places, draws) && |days| == |counts|
    ensures Fills(plan, places + DayBlock(slug, days, counts), draws)
  {
    plan := plan0;
    assert places + DayBlock(slug, days[..0], counts[..0]) == places;
    for d := 0 to |days|
      invariant Fills(plan, places + DayBlock(slug, days[..d], counts[..d]), draws)
    {
      ghost var done := DayBlock(slug, days[..d], counts[..d]);
      plan := PlanDay(plan, places + done, Place(slug, days[d]), counts[d], draws);
      DayBlockNext(slug, days, counts, d);
      assert places + done + Repeat(Place(slug, days[d]), counts[d])
          == places + (done + Repeat(Place(slug, days[d]), counts[d]));
    }
    assert days[..|days|] == days && counts[..|counts|] == counts;
  }

  /** The split of one business's bookings: positive weights never fail. */
  method SplitOverDays(days: seq<int>, perWeek: int, shuffled: seq<nat>) returns (split: seq<int>)
    requires AllWorkdays(days) && days != [] && Apportion.Indices(shuffled, |days|)
    ensures Spread(split, days, perWeek, shuffled) && |split| == |days|
  {
    PositiveSum(DayWeights(days));
    var weights := Normalised(DayWeights(days));
    PositiveSum(weights);
    assert !Apportion.HasNegative(weights);
    var r := Apportion.Allocate(perWeek * 2, weights, shuffled);
    return r.value;
  }

  /** Each business's split is the largest-remainder one for its own shuffle. */
  ghost predicate Spreads(splits: seq<seq<int>>, days: seq<int>, perWeek: int, shuffles: nat -> seq<nat>)
    requires AllWorkdays(days) && days != []
  {
    forall b :: 0 <= b < |splits| ==> |splits[b]| == |days| && Spread(splits[b], days, perWeek, shuffles(b))
  }

  /** Ten days, a split over them for each business, and a booking in each place of the blueprint. */
  ghost predicate IsPlan(plan: seq<PlannedBooking>, slugs: seq<string>, start: int, perWeek: int,
      shuffles: nat -> seq<nat>, draws: nat -> Draw, splits: seq<seq<int>>)
  {
    var days := Workdays(start, WINDOW_DAYS);
    && |days| == 10 && |splits| == |slugs| && Spreads(splits, days, perWeek, shuffles)
    && Fills(plan, Blueprint(slugs, days, splits), draws)
  }

  lemma {:induction false} SpreadsNext(splits: seq<seq<int>>, days: seq<int>, split: seq<int>, perWeek: int,
      shuffles: nat -> seq<nat>)
    requires AllWorkdays(days) && days != [] && Spreads(splits, days, perWeek, shuffles)
    requires |split| == |days| && Spread(split, days, perWeek, shuffles(|splits|))
    ensures Spreads(splits + [split], days, perWeek, shuffles)
  {
    forall b | 0 <= b < |splits + [split]|
      ensures |(splits + [split])[b]| == |days| && Spread((splits + [split])[b], days, perWeek, shuffles(b))
    {
      if b < |splits| {
        assert (splits + [split])[b] == splits[b];
      }
    }
  }

  method PlanTwoWeeks(slugs: seq<string>, start: int, perWeek: int, shuffles: nat -> seq<nat>, draws: nat -> Draw)
    returns (plan: seq<PlannedBooking>, ghost splits: seq<seq<int>>)
    requires forall b :: Apportion.Indices(shuffles(b), 10)
    ensures IsPlan(plan, slugs, start, perWeek, shuffles, draws, splits)
    ensures |plan| == |slugs| * Target(perWeek)
    ensures forall i, j :: 0 <= i < j < |plan| ==> plan[i].guestEmail != plan[j].guestEmail
  {
    var days := Workdays(start, WINDOW_DAYS);
    TenWorkdays(start);
    plan, splits := [], [];
    for b := 0 to |slugs|
      invariant |splits| == b && Spreads(splits, days, perWeek, shuffles)
      invariant Fills(plan, Blueprint(slugs[..b], days, splits), draws)
    {
      var split := SplitOverDays(days, perWeek, shuffles(b));
      plan := PlanBusiness(plan, Blueprint(slugs[..b], days, splits), slugs[b], days, split, draws);
      SpreadsNext(splits, days, split, perWeek, shuffles);
      BlueprintNext(slugs, days, splits, b, split);
      splits := splits + [split];
    }
    assert slugs[..|slugs|] == slugs;
    PlanIsExact(plan, slugs, start, perWeek, shuffles, draws, splits);
    PlanAddressesDistinct(plan, Blueprint(slugs, days, splits), draws);
  }

  // ------------------------------------------------------------------
  // What the plan promises
  // ------------------------------------------------------------------

  lemma SpreadsSum(splits: seq<seq<int>>, days: seq<int>, perWeek: int, shuffles: nat -> seq<nat>)
    requires AllWorkdays(days) && days != [] && Spreads(splits, days, perWeek, shuffles)
    ensures Splits(splits, |days|, Target(perWeek))
  {
    forall b | 0 <= b < |splits|
      ensures |splits[b]| == |days| && Apportion.SumInt(splits[b]) == Target(perWeek)
        && forall i :: 0 <= i < |days| ==> splits[b][i] >= 0
    {
      SpreadSums(splits[b], days, perWeek, shuffles(b));
    }
  }

  /** The size is exact, the numbers run from one, and every day is a workday of the window. */
  lemma {:induction false} PlanIsExact(plan: seq<PlannedBooking>, slugs: seq<string>, start: int, perWeek: int,
      shuffles: nat -> seq<nat>, draws: nat -> Draw, splits: seq<seq<int>>)
    requires IsPlan(plan, slugs, start, perWeek, shuffles, draws, splits)
    ensures |plan| == |slugs| * Target(perWeek)
    ensures forall i :: 0 <= i < |plan| ==>
      && plan[i].number == i + 1
      && start <= plan[i].day < start + WINDOW_DAYS && Weekday(plan[i].day) < 5
  {
    var days := Workdays(start, WINDOW_DAYS);
    SpreadsSum(splits, days, perWeek, shuffles);
    BlueprintLength(slugs, days, splits, Target(perWeek));
    BlueprintPlaces(slugs, days, splits);
  }

  /** No two planned guests share an address. */
  lemma PlanAddressesDistinct(plan: seq<PlannedBooking>, places: seq<Place>, draws: nat -> Draw)
    requires Fills(plan, places, draws)
    ensures forall i, j :: 0 <= i < j < |plan| ==> plan[i].guestEmail != plan[j].guestEmail
  {
    forall i, j | 0 <= i < j < |plan|
      ensures plan[i].guestEmail != plan[j].guestEmail
    {
      EmailsDistinct(draws(i + 1).name, i + 1, draws(j + 1).name, j + 1);
    }
  }

  /** Where and when each booking is. */
  function PlacesOf(plan: seq<PlannedBooking>): (places: seq<Place>)
    ensures |places| == |plan| && forall i :: 0 <= i < |plan| ==> places[i] == Place(plan[i].slug, plan[i].day)
  {
    seq(|plan|, i requires 0 <= i < |plan| => Place(plan[i].slug, plan[i].day))
  }

  lemma PlacesOfPart(
    plan: seq<PlannedBooking>, before: seq<Place>, block: seq<Place>, after: seq<Place>, draws: nat -> Draw)
    requires Fills(plan, before + block + after, draws)
    ensures |before| + |block| <= |plan|
    ensures PlacesOf(plan[|before|..|before| + |block|]) == block
  {
    var places, part := before + block + after, plan[|before|..|before| + |block|];
    forall i | 0 <= i < |block| ensures PlacesOf(part)[i] == block[i] {
      assert places[|before| + i] == block[i];
    }
  }

  /** All of `mine` are of `slug`, and on each day there are as many as `split` says. */
  ghost predicate Fair(mine: seq<Place>, slug: string, days: seq<int>, split: seq<int>)
    requires |days| == |split|
  {
    && (forall i :: 0 <= i < |mine| ==> mine[i].slug == slug)
    && (forall d :: 0 <= d < |days| ==> OnDay(mine, days[d]) == split[d])
  }

  lemma BlockIsFair(slug: string, days: seq<int>, counts: seq<int>)
    requires |days| == |counts| && forall d :: 0 <= d < |counts| ==> counts[d] >= 0
    requires Increasing(days)
    ensures Fair(DayBlock(slug, days, counts), slug, days, counts)
  {
    DayBlockPlaces(slug, days, counts);
    forall d | 0 <= d < |days| ensures OnDay(DayBlock(slug, days, counts), days[d]) == counts[d] {
      DayBlockCounts(slug, days, counts, d);
    }
  }

  lemma {:induction false} BusinessIsFair(
    plan: seq<PlannedBooking>, slugs: seq<string>, days: seq<int>, splits: seq<seq<int>>,
      n: nat, draws: nat -> Draw, b: nat)
    requires |slugs| == |splits| && b < |slugs| && Splits(splits, |days|, n)
    requires Increasing(days)
    requires Fills(plan, Blueprint(slugs, days, splits), draws)
    ensures b * n + n <= |plan| && Fair(PlacesOf(plan[b * n..b * n + n]), slugs[b], days, splits[b])
  {
    var before, after := BlueprintBlock(slugs, days, splits, n, b);
    PlacesOfPart(plan, before, DayBlock(slugs[b], days, splits[b]), after, draws);
    BlockIsFair(slugs[b], days, splits[b]);
  }

  /** Each business gets the same number of bookings, all its own, and on each day its split's count. */
  lemma {:induction false} PlanIsFair(plan: seq<PlannedBooking>, slugs: seq<string>, start: int, perWeek: int,
      shuffles: nat -> seq<nat>, draws: nat -> Draw, splits: seq<seq<int>>, b: nat)
    requires IsPlan(plan, slugs, start, perWeek, shuffles, draws, splits) && b < |slugs|
    ensures var n, days := Target(perWeek), Workdays(start, WINDOW_DAYS);
      b * n + n <= |plan| && Fair(PlacesOf(plan[b * n..b * n + n]), slugs[b], days, splits[b])
  {
    var days := Workdays(start, WINDOW_DAYS);
    SpreadsSum(splits, days, perWeek, shuffles);
    BusinessIsFair(plan, slugs, days, splits, Target(perWeek), draws, b);
  }
}
