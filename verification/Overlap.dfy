/**
  How many requests of a burst were in flight at the busiest instant: a sweep over end points,
  against the number of half-open intervals that cover an instant.
 */
module Overlap {

  /** One request, in flight from `started` up to but not including `finished`. */
  datatype Interval = Interval(started: real, finished: real)

  datatype Event = Event(at: real, delta: int)

  // ------------------------------------------------------------------
  // What is measured
  // ------------------------------------------------------------------

  predicate Covers(iv: Interval, t: real) {
    iv.started <= t < iv.finished
  }

  /** The number of intervals open at instant `t`. */
  function Covering(ivs: seq<Interval>, t: real): nat {
    if ivs == [] then 0
    else Covering(ivs[..|ivs| - 1], t) + if Covers(ivs[|ivs| - 1], t) then 1 else 0
  }

  ghost predicate WellTimed(ivs: seq<Interval>) {
    forall i :: 0 <= i < |ivs| ==> ivs[i].started <= ivs[i].finished
  }

  /** `best` is the largest number of intervals open at one instant. */
  ghost predicate IsPeak(best: int, ivs: seq<Interval>) {
    && (forall t: real :: Covering(ivs, t) <= best)
    && (exists t: real :: Covering(ivs, t) == best)
  }

  // ------------------------------------------------------------------
  // The sweep
  // ------------------------------------------------------------------

  /** A start counts +1 and a finish -1. */
  function EventsOf(ivs: seq<Interval>): seq<Event> {
    if ivs == [] then []
    else
      var last := ivs[|ivs| - 1];
      EventsOf(ivs[..|ivs| - 1]) + [Event(last.started, 1), Event(last.finished, -1)]
  }

  /** The sort order: by time, and at the same time finishes before starts. */
  predicate Precedes(a: Event, b: Event) {
    a.at < b.at || (a.at == b.at && a.delta <= b.delta)
  }

  ghost predicate Sorted(es: seq<Event>) {
    forall i, j :: 0 <= i <= j < |es| ==> Precedes(es[i], es[j])
  }

  function Insert(es: seq<Event>, e: Event): seq<Event> {
    if es == [] then [e]
    else if Precedes(es[|es| - 1], e) then es + [e]
    else Insert(es[..|es| - 1], e) + [es[|es| - 1]]
  }

  function SortEvents(es: seq<Event>): seq<Event> {
    if es == [] then [] else Insert(SortEvents(es[..|es| - 1]), es[|es| - 1])
  }

  /** The running count after all of `es`. */
  function Current(es: seq<Event>): int {
    if es == [] then 0 else Current(es[..|es| - 1]) + es[|es| - 1].delta
  }

  /** The largest running count met in `es`, and at least zero. */
  function Best(es: seq<Event>): int {
    if es == [] then 0
    else
      var before := Best(es[..|es| - 1]);
      if Current(es) > before then Current(es) else before
  }

  function PeakOf(ivs: seq<Interval>): int {
    Best(SortEvents(EventsOf(ivs)))
  }

  method PeakOverlap(ivs: seq<Interval>) returns (best: int)
    ensures best == PeakOf(ivs)
    ensures WellTimed(ivs) ==> IsPeak(best, ivs)
  {
    var events: seq<Event> := [];
    for i := 0 to |ivs|
      invariant events == EventsOf(ivs[..i])
    {
      assert ivs[..i + 1][..i] == ivs[..i];
      events := events + [Event(ivs[i].started, 1), Event(ivs[i].finished, -1)];
    }
    assert ivs[..|ivs|] == ivs;
    events := SortEvents(events);
    best := 0;
    var current := 0;
    for i := 0 to |events|
      invariant current == Current(events[..i]) && best == Best(events[..i])
    {
      assert events[..i + 1][..i] == events[..i];
      current := current + events[i].delta;
      best := if current > best then current else best;
    }
    assert events[..|events|] == events;
    if WellTimed(ivs) {
      PeakIsMaximum(ivs);
    }
  }

  // ------------------------------------------------------------------
  // The net count at an instant
  // ------------------------------------------------------------------

  /** Starts minus finishes up to and including instant `t`. */
  ghost function Net(es: seq<Event>, t: real): int {
    if es == [] then 0
    else Net(es[..|es| - 1], t) + if es[|es| - 1].at <= t then es[|es| - 1].delta else 0
  }

  lemma NetSnoc(es: seq<Event>, e: Event, t: real)
    ensures Net(es + [e], t) == Net(es, t) + if e.at <= t then e.delta else 0
  {
    assert (es + [e])[..|es + [e]| - 1] == es;
  }

  lemma {:induction false} NetIsCovering(ivs: seq<Interval>, t: real)
    requires WellTimed(ivs)
    ensures Net(EventsOf(ivs), t) == Covering(ivs, t)
  {
    if ivs != [] {
      var before, last := ivs[..|ivs| - 1], ivs[|ivs| - 1];
      NetIsCovering(before, t);
      var started, finished := Event(last.started, 1), Event(last.finished, -1);
      NetSnoc(EventsOf(before), started, t);
      NetSnoc(EventsOf(before) + [started], finished, t);
      assert EventsOf(ivs) == EventsOf(before) + [started] + [finished];
    }
  }

  lemma {:induction false} InsertNet(es: seq<Event>, e: Event, t: real)
    ensures Net(Insert(es, e), t) == Net(es, t) + if e.at <= t then e.delta else 0
  {
    if es == [] {
      NetSnoc([], e, t);
      assert [] + [e] == [e];
    } else if Precedes(es[|es| - 1], e) {
      NetSnoc(es, e, t);
    } else {
      InsertNet(es[..|es| - 1], e, t);
      NetSnoc(Insert(es[..|es| - 1], e), es[|es| - 1], t);
    }
  }

  lemma {:induction false} SortNet(es: seq<Event>, t: real)
    ensures Net(SortEvents(es), t) == Net(es, t)
  {
    if es != [] {
      SortNet(es[..|es| - 1], t);
      InsertNet(SortEvents(es[..|es| - 1]), es[|es| - 1], t);
    }
  }

  lemma {:induction false} InsertSorted(es: seq<Event>, e: Event)
    requires Sorted(es)
    ensures Sorted(Insert(es, e))
    ensures forall x :: x in Insert(es, e) ==> x in es || x == e
  {
    if es != [] && !Precedes(es[|es| - 1], e) {
      var n := |es| - 1;
      InsertSorted(es[..n], e);
      var front := Insert(es[..n], e);
      forall i | 0 <= i < |front| ensures Precedes(front[i], es[n]) {
        assert front[i] in front;
        if front[i] != e { assert front[i] in es[..n]; }
      }
    }
  }

  ghost predicate UnitDeltas(es: seq<Event>) {
    forall e :: e in es ==> e.delta == 1 || e.delta == -1
  }

  lemma {:induction false} SortSorts(es: seq<Event>)
    ensures Sorted(SortEvents(es))
    ensures UnitDeltas(es) ==> UnitDeltas(SortEvents(es))
  {
    if es != [] {
      var n := |es| - 1;
      SortSorts(es[..n]);
      InsertSorted(SortEvents(es[..n]), es[n]);
    }
  }

  lemma {:induction false} EventsAreUnit(ivs: seq<Interval>)
    ensures UnitDeltas(EventsOf(ivs))
  {
    if ivs != [] {
      EventsAreUnit(ivs[..|ivs| - 1]);
    }
  }

  // ------------------------------------------------------------------
  // Running counts and net counts
  // ------------------------------------------------------------------

  lemma {:induction false} NetAll(es: seq<Event>, t: real)
    requires forall i :: 0 <= i < |es| ==> es[i].at <= t
    ensures Net(es, t) == Current(es)
  {
    if es != [] {
      NetAll(es[..|es| - 1], t);
    }
  }

  /** In sorted events, the net count at `t` is the running count after those up to `t`. */
  lemma {:induction false} NetIsCurrent(es: seq<Event>, t: real) returns (m: nat)
    requires Sorted(es)
    ensures m <= |es| && Net(es, t) == Current(es[..m])
    ensures forall i :: 0 <= i < m ==> es[i].at <= t
    ensures forall i :: m <= i < |es| ==> es[i].at > t
  {
    if es == [] {
      m := 0;
    } else if es[|es| - 1].at <= t {
      m := |es|;
      assert es[..m] == es;
      NetAll(es, t);
    } else {
      m := NetIsCurrent(es[..|es| - 1], t);
      assert es[..|es| - 1][..m] == es[..m];
    }
  }

  lemma {:induction false} BestBounds(es: seq<Event>, m: nat)
    requires m <= |es|
    ensures Current(es[..m]) <= Best(es)
  {
    if m == |es| {
      assert es[..m] == es;
    } else {
      BestBounds(es[..|es| - 1], m);
      assert es[..|es| - 1][..m] == es[..m];
    }
  }

  lemma {:induction false} BestReached(es: seq<Event>) returns (n: nat)
    ensures n <= |es| && Current(es[..n]) == Best(es)
  {
    if es == [] {
      n := 0;
    } else if Current(es) == Best(es) {
      n := |es|;
      assert es[..n] == es;
    } else {
      n := BestReached(es[..|es| - 1]);
      assert es[..|es| - 1][..n] == es[..n];
    }
  }

  /** Over a stretch of starts the running count does not fall. */
  lemma {:induction false} StartsRaise(es: seq<Event>, n: nat, m: nat)
    requires n <= m <= |es| && (forall i :: n <= i < m ==> es[i].delta > 0)
    ensures Current(es[..n]) <= Current(es[..m])
  {
    if n < m {
      StartsRaise(es, n, m - 1);
      assert es[..m][..m - 1] == es[..m - 1];
    }
  }

  /** A positive best count is the net count at some instant: the ties are broken so as to reach it. */
  lemma BestIsNet(es: seq<Event>) returns (t: real)
    requires Sorted(es) && UnitDeltas(es) && Best(es) > 0
    ensures Net(es, t) == Best(es)
  {
    var n := BestReached(es);
    assert es[..n][..n - 1] == es[..n - 1];
    BestBounds(es, n - 1);
    assert es[n - 1] in es;
    assert es[n - 1].delta == 1;
    t := es[n - 1].at;
    var m := NetIsCurrent(es, t);
    assert n <= m;
    forall i | n <= i < m ensures es[i].delta > 0 {
      assert Precedes(es[n - 1], es[i]);
    }
    StartsRaise(es, n, m);
    BestBounds(es, m);
  }

  /** The sweep computes the largest number of intervals open at one instant. */
  lemma PeakIsMaximum(ivs: seq<Interval>)
    requires WellTimed(ivs)
    ensures IsPeak(PeakOf(ivs), ivs)
  {
    var es := SortEvents(EventsOf(ivs));
    EventsAreUnit(ivs);
    SortSorts(EventsOf(ivs));
    forall t: real ensures Covering(ivs, t) <= PeakOf(ivs) {
      NetIsCovering(ivs, t);
      SortNet(EventsOf(ivs), t);
      var m := NetIsCurrent(es, t);
      BestBounds(es, m);
    }
    if Best(es) > 0 {
      var t := BestIsNet(es);
      NetIsCovering(ivs, t);
      SortNet(EventsOf(ivs), t);
      assert Covering(ivs, t) == PeakOf(ivs);
    } else {
      assert Covering(ivs, 0.0) <= PeakOf(ivs);
      BestBounds(es, 0);
      assert Covering(ivs, 0.0) == PeakOf(ivs);
    }
  }

  // ------------------------------------------------------------------
  // What follows from being the maximum
  // ------------------------------------------------------------------

  lemma {:induction false} CoveringConcat(a: seq<Interval>, b: seq<Interval>, t: real)
    ensures Covering(a + b, t) == Covering(a, t) + Covering(b, t)
  {
    if b == [] {
      assert a + b == a;
    } else {
      assert (a + b)[..|a + b| - 1] == a + b[..|b| - 1];
      CoveringConcat(a, b[..|b| - 1], t);
    }
  }

  lemma TakeOut(b: seq<Interval>, k: nat, t: real)
    requires k < |b|
    ensures multiset(b) == multiset(b[..k] + b[k + 1..]) + multiset{b[k]}
    ensures Covering(b, t) == Covering(b[..k] + b[k + 1..], t) + if Covers(b[k], t) then 1 else 0
  {
    assert b == b[..k] + ([b[k]] + b[k + 1..]);
    CoveringConcat(b[..k], [b[k]] + b[k + 1..], t);
    CoveringConcat([b[k]], b[k + 1..], t);
    CoveringConcat(b[..k], b[k + 1..], t);
    assert Covering([b[k]], t) == if Covers(b[k], t) then 1 else 0;
  }

  lemma {:induction false} CoveringPermuted(a: seq<Interval>, b: seq<Interval>, t: real)
    requires multiset(a) == multiset(b)
    ensures Covering(a, t) == Covering(b, t)
  {
    if a == [] {
      assert |multiset(b)| == |multiset(a)| == 0;
    } else {
      var n := |a| - 1;
      assert a[n] in multiset(b);
      var k :| 0 <= k < |b| && b[k] == a[n];
      TakeOut(b, k, t);
      assert a == a[..n] + [a[n]];
      assert multiset(a) == multiset(a[..n]) + multiset{a[n]};
      assert multiset(a[..n]) == multiset(a) - multiset{a[n]};
      assert multiset(b[..k] + b[k + 1..]) == multiset(b) - multiset{b[k]};
      CoveringPermuted(a[..n], b[..k] + b[k + 1..], t);
    }
  }

  /** The order in which the contenders were recorded does not matter. */
  lemma PeakPermuted(a: seq<Interval>, b: seq<Interval>)
    requires multiset(a) == multiset(b) && WellTimed(a)
    ensures PeakOf(a) == PeakOf(b)
  {
    forall i | 0 <= i < |b| ensures b[i].started <= b[i].finished {
      assert b[i] in multiset(a);
    }
    PeakIsMaximum(a);
    PeakIsMaximum(b);
    var t :| Covering(a, t) == PeakOf(a);
    CoveringPermuted(a, b, t);
    var u :| Covering(b, u) == PeakOf(b);
    CoveringPermuted(a, b, u);
  }

  /** Two requests were in flight over a common stretch of time. */
  predicate Overlapping(a: Interval, b: Interval) {
    && a.started < b.finished && b.started < a.finished
    && a.started < a.finished && b.started < b.finished
  }

  lemma {:induction false} CoveringOne(ivs: seq<Interval>, t: real)
    requires Covering(ivs, t) >= 1
    ensures exists i :: 0 <= i < |ivs| && Covers(ivs[i], t)
  {
    var n := |ivs| - 1;
    if !Covers(ivs[n], t) {
      CoveringOne(ivs[..n], t);
      var i :| 0 <= i < n && Covers(ivs[..n][i], t);
      assert Covers(ivs[i], t);
    }
  }

  lemma {:induction false} CoveringTwo(ivs: seq<Interval>, t: real)
    requires Covering(ivs, t) >= 2
    ensures exists i, j :: 0 <= i < j < |ivs| && Covers(ivs[i], t) && Covers(ivs[j], t)
  {
    var n := |ivs| - 1;
    if Covers(ivs[n], t) {
      CoveringOne(ivs[..n], t);
      var i :| 0 <= i < n && Covers(ivs[..n][i], t);
      assert Covers(ivs[i], t) && Covers(ivs[n], t);
    } else {
      CoveringTwo(ivs[..n], t);
      var i, j :| 0 <= i < j < n && Covers(ivs[..n][i], t) && Covers(ivs[..n][j], t);
      assert Covers(ivs[i], t) && Covers(ivs[j], t);
    }
  }

  lemma {:induction false} CoversCount(ivs: seq<Interval>, i: nat, t: real)
    requires i < |ivs| && Covers(ivs[i], t)
    ensures Covering(ivs, t) >= 1
  {
    if i < |ivs| - 1 {
      CoversCount(ivs[..|ivs| - 1], i, t);
    }
  }

  lemma {:induction false} CoversCountTwo(ivs: seq<Interval>, i: nat, j: nat, t: real)
    requires i < j < |ivs| && Covers(ivs[i], t) && Covers(ivs[j], t)
    ensures Covering(ivs, t) >= 2
  {
    var n := |ivs| - 1;
    if j == n {
      CoversCount(ivs[..n], i, t);
    } else {
      CoversCountTwo(ivs[..n], i, j, t);
    }
  }

  ghost predicate SomeOverlap(ivs: seq<Interval>) {
    exists i, j :: 0 <= i < j < |ivs| && Overlapping(ivs[i], ivs[j])
  }

  /** The peak is two or more exactly when two of the requests really overlapped. */
  lemma PeakTwoIffOverlap(ivs: seq<Interval>)
    requires WellTimed(ivs)
    ensures PeakOf(ivs) >= 2 <==> SomeOverlap(ivs)
  {
    PeakIsMaximum(ivs);
    if PeakOf(ivs) >= 2 {
      var t :| Covering(ivs, t) == PeakOf(ivs);
      CoveringTwo(ivs, t);
      var i, j :| 0 <= i < j < |ivs| && Covers(ivs[i], t) && Covers(ivs[j], t);
      assert Overlapping(ivs[i], ivs[j]);
    }
    if SomeOverlap(ivs) {
      var i, j :| 0 <= i < j < |ivs| && Overlapping(ivs[i], ivs[j]);
      var t := if ivs[i].started > ivs[j].started then ivs[i].started else ivs[j].started;
      CoversCountTwo(ivs, i, j, t);
      assert Covering(ivs, t) <= PeakOf(ivs);
    }
  }

  lemma {:induction false} SerialCovering(ivs: seq<Interval>, t: real)
    requires WellTimed(ivs)
    requires forall i :: 0 < i < |ivs| ==> ivs[i - 1].finished <= ivs[i].started
    ensures Covering(ivs, t) <= 1
    ensures ivs != [] && Covering(ivs, t) == 1 ==> t < ivs[|ivs| - 1].finished
  {
    if ivs != [] {
      var n := |ivs| - 1;
      SerialCovering(ivs[..n], t);
    }
  }

  /** A strictly serial burst, each request starting when the one before has finished, peaks at one at most. */
  lemma SerialBurstPeaksAtOne(ivs: seq<Interval>)
    requires WellTimed(ivs)
    requires forall i :: 0 < i < |ivs| ==> ivs[i - 1].finished <= ivs[i].started
    ensures PeakOf(ivs) <= 1
  {
    PeakIsMaximum(ivs);
    var t :| Covering(ivs, t) == PeakOf(ivs);
    SerialCovering(ivs, t);
  }
}
