/**
  Splitting a whole number into parts in proportion to weights, by largest remainder.

  Arithmetic is exact.  The seeded shuffle that orders equal remainders is an arbitrary permutation
  of the indices, given as an input.
 */
module Apportion {
  import opened Wrappers

  datatype Error = NegativeWeight | NonPositiveSum

  function Sum(xs: seq<real>): real {
    if xs == [] then 0.0 else Sum(xs[..|xs| - 1]) + xs[|xs| - 1]
  }

  function SumInt(xs: seq<int>): int {
    if xs == [] then 0 else SumInt(xs[..|xs| - 1]) + xs[|xs| - 1]
  }

  function Abs(x: real): real { if x < 0.0 then -x else x }

  /** The exact shares of `total`. */
  function Shares(total: int, weights: seq<real>): (r: seq<real>)
    requires Sum(weights) > 0.0
    ensures |r| == |weights|
  {
    seq(|weights|, i requires 0 <= i < |weights| => total as real * weights[i] / Sum(weights))
  }

  /** The integer part of each share; shares are not negative, so truncation is the floor. */
  function Floors(shares: seq<real>): (r: seq<int>)
    ensures |r| == |shares|
    ensures forall i :: 0 <= i < |r| ==> r[i] == shares[i].Floor
  {
    seq(|shares|, i requires 0 <= i < |shares| => shares[i].Floor)
  }

  /** What each share leaves after its integer part. */
  function Fractions(shares: seq<real>): (r: seq<real>)
    ensures |r| == |shares|
    ensures forall i :: 0 <= i < |r| ==> r[i] == shares[i] - shares[i].Floor as real && 0.0 <= r[i] < 1.0
  {
    seq(|shares|, i requires 0 <= i < |shares| => shares[i] - shares[i].Floor as real)
  }

  ghost predicate Indices(order: seq<nat>, n: nat) {
    && |order| == n
    && (forall p :: 0 <= p < n ==> order[p] < n)
    && (forall p, q :: 0 <= p < q < n ==> order[p] != order[q])
  }

  function At(fractions: seq<real>, i: nat): real {
    if i < |fractions| then fractions[i] else 0.0
  }

  /** Insert `e` after every index whose fraction is at least its own. */
  function InsertByFraction(order: seq<nat>, e: nat, fractions: seq<real>): seq<nat> {
    if order == [] then [e]
    else if At(fractions, order[|order| - 1]) >= At(fractions, e) then order + [e]
    else InsertByFraction(order[..|order| - 1], e, fractions) + [order[|order| - 1]]
  }

  /** A stable sort of the shuffled indices, largest fraction first. */
  function SortByFraction(order: seq<nat>, fractions: seq<real>): seq<nat> {
    if order == [] then []
    else InsertByFraction(SortByFraction(order[..|order| - 1], fractions), order[|order| - 1], fractions)
  }

  // ------------------------------------------------------------------
  // What the split is
  // ------------------------------------------------------------------

  predicate Bumped(counts: seq<int>, shares: seq<real>, i: nat)
    requires i < |counts| == |shares|
  {
    counts[i] == shares[i].Floor + 1
  }

  ghost function Position(shuffled: seq<nat>, i: nat): nat
    requires i in shuffled
  {
    var p: nat :| p < |shuffled| && shuffled[p] == i;
    p
  }

  /** Index `i` comes before `j`: a larger fraction, or the same fraction and earlier in the shuffle. */
  ghost predicate Ahead(fractions: seq<real>, shuffled: seq<nat>, i: nat, j: nat)
    requires i in shuffled && j in shuffled
  {
    || At(fractions, i) > At(fractions, j)
    || (At(fractions, i) == At(fractions, j) && Position(shuffled, i) < Position(shuffled, j))
  }

  /**
    The largest-remainder split: each part is the floor of its share or one more, the parts sum to
    the total, and the extra units go to the largest fractions, equal ones in shuffled order.
   */
  ghost predicate LargestRemainder(counts: seq<int>, total: int, shares: seq<real>, shuffled: seq<nat>) {
    && |counts| == |shares| == |shuffled|
    && SumInt(counts) == total
    && (forall i :: 0 <= i < |counts| ==> counts[i] == shares[i].Floor || counts[i] == shares[i].Floor + 1)
    && (forall i: nat :: i < |counts| ==> i in shuffled)
    && (forall i: nat, j: nat ::
        i < |counts| && j < |counts| && Bumped(counts, shares, i) && !Bumped(counts, shares, j) ==>
          Ahead(Fractions(shares), shuffled, i, j))
  }

  /** The sum of the absolute deviations of a split from the exact shares. */
  function Deviation(counts: seq<int>, shares: seq<real>): real
    requires |counts| == |shares|
  {
    if counts == [] then 0.0
    else
      var n := |counts| - 1;
      Deviation(counts[..n], shares[..n]) + Abs(counts[n] as real - shares[n])
  }

  // ------------------------------------------------------------------
  // Shares
  // ------------------------------------------------------------------

  lemma ScaleStep(a: real, b: real, k: real)
    ensures k * (a + b) == k * a + k * b
  {
  }

  lemma ShareIsScaled(t: real, w: real, s: real)
    requires s > 0.0
    ensures t * w / s == t / s * w
  {
  }

  lemma {:induction false} ScaledSum(xs: seq<real>, ys: seq<real>, k: real)
    requires |xs| == |ys| && forall i :: 0 <= i < |xs| ==> ys[i] == k * xs[i]
    ensures Sum(ys) == k * Sum(xs)
  {
    if xs != [] {
      var n := |xs| - 1;
      ScaledSum(xs[..n], ys[..n], k);
      ScaleStep(Sum(xs[..n]), xs[n], k);
    }
  }

  lemma SharesSumToTotal(total: int, weights: seq<real>)
    requires Sum(weights) > 0.0
    ensures Sum(Shares(total, weights)) == total as real
  {
    var s := Sum(weights);
    var k := total as real / s;
    var shares := Shares(total, weights);
    forall i | 0 <= i < |weights| ensures shares[i] == k * weights[i] {
      ShareIsScaled(total as real, weights[i], s);
    }
    ScaledSum(weights, shares, k);
    assert k * s == total as real;
  }

  lemma NonNegativeShare(t: real, w: real, s: real)
    requires t >= 0.0 && w >= 0.0 && s > 0.0
    ensures t * w / s >= 0.0
  {
  }

  /** The floors fall short of the total by less than the number of parts. */
  lemma {:induction false} FloorsFallShort(shares: seq<real>)
    ensures SumInt(Floors(shares)) as real <= Sum(shares)
    ensures shares != [] ==> Sum(shares) < SumInt(Floors(shares)) as real + |shares| as real
  {
    if shares != [] {
      var n := |shares| - 1;
      FloorsFallShort(shares[..n]);
      assert Floors(shares)[..n] == Floors(shares[..n]);
    }
  }

  // ------------------------------------------------------------------
  // The sort
  // ------------------------------------------------------------------

  ghost predicate AheadSorted(order: seq<nat>, fractions: seq<real>, shuffled: seq<nat>) {
    && (forall x :: x in order ==> x in shuffled)
    && (forall p, q :: 0 <= p < q < |order| ==> Ahead(fractions, shuffled, order[p], order[q]))
  }

  lemma AppendAfter<T>(front: seq<T>, e: T, back: seq<T>, last: T)
    ensures front + back + [last] == front + (back + [last])
    ensures front + [e] + back + [last] == front + [e] + (back + [last])
  {
  }

  ghost predicate AllBelow(order: seq<nat>, fractions: seq<real>, e: nat) {
    forall p :: 0 <= p < |order| ==> At(fractions, order[p]) < At(fractions, e)
  }

  /** Insertion puts `e` behind the last index whose fraction is at least its own. */
  lemma {:induction false} InsertSplits(order: seq<nat>, e: nat, fractions: seq<real>)
    returns (front: seq<nat>, back: seq<nat>)
    ensures order == front + back && InsertByFraction(order, e, fractions) == front + [e] + back
    ensures front == [] || At(fractions, front[|front| - 1]) >= At(fractions, e)
    ensures AllBelow(back, fractions, e)
  {
    if order == [] || At(fractions, order[|order| - 1]) >= At(fractions, e) {
      front, back := order, [];
    } else {
      var init, last := order[..|order| - 1], order[|order| - 1];
      front, back := InsertSplits(init, e, fractions);
      AppendAfter(front, e, back, last);
      back := back + [last];
    }
  }

  /** Putting `e` at place `k`, behind what is ahead of it, keeps the order. */
  lemma PlaceAhead(front: seq<nat>, e: nat, back: seq<nat>, fractions: seq<real>, shuffled: seq<nat>)
    requires AheadSorted(front + back, fractions, shuffled) && e in shuffled
    requires forall x :: x in front ==> x in shuffled && Ahead(fractions, shuffled, x, e)
    requires forall x :: x in back ==> x in shuffled && Ahead(fractions, shuffled, e, x)
    ensures AheadSorted(front + [e] + back, fractions, shuffled)
  {
    var order, r := front + back, front + [e] + back;
    var k := |front|;
    forall p, q | 0 <= p < q < |r|
      ensures r[p] in shuffled && r[q] in shuffled && Ahead(fractions, shuffled, r[p], r[q])
    {
      if p != k && q != k {
        assert r[p] == order[if p < k then p else p - 1] && r[q] == order[if q < k then q else q - 1];
      } else if p == k {
        assert r[q] in back;
      } else {
        assert r[p] in front;
      }
    }
    assert forall x :: x in r ==> x in front || x == e || x in back;
  }

  lemma FrontAhead(front: seq<nat>, back: seq<nat>, e: nat, fractions: seq<real>, shuffled: seq<nat>)
    requires AheadSorted(front + back, fractions, shuffled) && e in shuffled
    requires front == [] || At(fractions, front[|front| - 1]) >= At(fractions, e)
    requires forall x :: x in front + back ==> Position(shuffled, x) < Position(shuffled, e)
    ensures forall x :: x in front ==> x in shuffled && Ahead(fractions, shuffled, x, e)
  {
    var order, last := front + back, |front| - 1;
    forall p | 0 <= p < |front| ensures front[p] in shuffled && Ahead(fractions, shuffled, front[p], e) {
      assert order[p] == front[p] && order[last] == front[last];
      assert order[p] in order;
      if p < last {
        assert Ahead(fractions, shuffled, order[p], order[last]);
      }
    }
  }

  /** Inserting an index that comes last in the shuffle keeps the order stable. */
  lemma {:induction false} InsertAhead(order: seq<nat>, e: nat, fractions: seq<real>, shuffled: seq<nat>)
    requires AheadSorted(order, fractions, shuffled) && e in shuffled
    requires forall x :: x in order ==> Position(shuffled, x) < Position(shuffled, e)
    ensures AheadSorted(InsertByFraction(order, e, fractions), fractions, shuffled)
    ensures multiset(InsertByFraction(order, e, fractions)) == multiset(order) + multiset{e}
  {
    var front, back := InsertSplits(order, e, fractions);
    FrontAhead(front, back, e, fractions, shuffled);
    forall x | x in back ensures x in shuffled && Ahead(fractions, shuffled, e, x) {
      assert x in order;
    }
    PlaceAhead(front, e, back, fractions, shuffled);
  }

  lemma PositionIs(shuffled: seq<nat>, n: nat, p: nat)
    requires Indices(shuffled, n) && p < n
    ensures shuffled[p] in shuffled && Position(shuffled, shuffled[p]) == p
  {
    assert shuffled[p] in shuffled;
  }

  lemma SameMembers(a: seq<nat>, b: seq<nat>, x: nat)
    requires multiset(a) == multiset(b) && x in a
    ensures x in b
  {
    assert x in multiset(a) && x in multiset(b);
  }

  lemma AmongFirst(shuffled: seq<nat>, n: nat, x: nat)
    requires Indices(shuffled, |shuffled|) && n <= |shuffled| && x in shuffled[..n]
    ensures x in shuffled && Position(shuffled, x) < n
  {
    var p :| 0 <= p < n && shuffled[p] == x;
    PositionIs(shuffled, |shuffled|, p);
  }

  lemma SortSnoc(order: seq<nat>, e: nat, fractions: seq<real>)
    ensures SortByFraction(order + [e], fractions) == InsertByFraction(SortByFraction(order, fractions), e, fractions)
  {
    assert (order + [e])[..|order + [e]| - 1] == order;
  }

  lemma {:induction false} SortStep(
    before: seq<nat>, prefix: seq<nat>, e: nat, fractions: seq<real>, shuffled: seq<nat>)
    requires AheadSorted(before, fractions, shuffled) && multiset(before) == multiset(prefix)
    requires e in shuffled && forall x :: x in prefix ==> x in shuffled && Position(shuffled, x) < Position(shuffled, e)
    ensures AheadSorted(InsertByFraction(before, e, fractions), fractions, shuffled)
    ensures multiset(InsertByFraction(before, e, fractions)) == multiset(prefix + [e])
  {
    forall x | x in before ensures x in shuffled && Position(shuffled, x) < Position(shuffled, e) {
      SameMembers(before, prefix, x);
    }
    InsertAhead(before, e, fractions, shuffled);
  }

  lemma {:induction false} SortAhead(shuffled: seq<nat>, n: nat, fractions: seq<real>)
    requires Indices(shuffled, |fractions|) && n <= |shuffled|
    ensures AheadSorted(SortByFraction(shuffled[..n], fractions), fractions, shuffled)
    ensures multiset(SortByFraction(shuffled[..n], fractions)) == multiset(shuffled[..n])
  {
    if n > 0 {
      var prefix, e := shuffled[..n - 1], shuffled[n - 1];
      SortAhead(shuffled, n - 1, fractions);
      PositionIs(shuffled, |fractions|, n - 1);
      forall x | x in prefix ensures x in shuffled && Position(shuffled, x) < Position(shuffled, e) {
        AmongFirst(shuffled, n - 1, x);
      }
      SortStep(SortByFraction(prefix, fractions), prefix, e, fractions, shuffled);
      SortSnoc(prefix, e, fractions);
      assert shuffled[..n] == prefix + [e];
    }
  }

  // ------------------------------------------------------------------
  // The allocation
  // ------------------------------------------------------------------

  lemma {:induction false} SumUpdate(xs: seq<int>, i: nat)
    requires i < |xs|
    ensures SumInt(xs[i := xs[i] + 1]) == SumInt(xs) + 1
  {
    var n := |xs| - 1;
    if i < n {
      SumUpdate(xs[..n], i);
      assert xs[i := xs[i] + 1][..n] == xs[..n][i := xs[i] + 1];
    } else {
      assert xs[i := xs[i] + 1][..n] == xs[..n];
    }
  }

  lemma {:induction false} ZeroSum(n: nat)
    ensures SumInt(seq(n, _ => 0)) == 0
  {
    if n > 0 {
      ZeroSum(n - 1);
      assert seq(n, _ => 0)[..n - 1] == seq(n - 1, _ => 0);
    }
  }

  /** The sorted order is a permutation of the shuffle: every index once. */
  lemma {:induction false} SortedIndices(shuffled: seq<nat>, fractions: seq<real>) returns (order: seq<nat>)
    requires Indices(shuffled, |fractions|)
    ensures order == SortByFraction(shuffled, fractions) && Indices(order, |fractions|)
    ensures AheadSorted(order, fractions, shuffled)
    ensures forall i: nat :: i < |fractions| ==> i in shuffled && i in order
  {
    order := SortByFraction(shuffled, fractions);
    assert shuffled[..|shuffled|] == shuffled;
    SortAhead(shuffled, |shuffled|, fractions);
    SameLength(order, shuffled);
    forall p | 0 <= p < |order| ensures order[p] < |fractions| {
      assert order[p] in shuffled;
    }
    AheadDistinct(order, fractions, shuffled);
    AllIndices(shuffled, |fractions|);
    forall i: nat | i < |fractions| ensures i in shuffled && i in order {
      assert i in shuffled;
      assert i in multiset(shuffled) && i in multiset(order);
    }
  }

  lemma SameLength(a: seq<nat>, b: seq<nat>)
    requires multiset(a) == multiset(b)
    ensures |a| == |b|
  {
    assert |multiset(a)| == |a| && |multiset(b)| == |b|;
  }

  lemma AheadDistinct(order: seq<nat>, fractions: seq<real>, shuffled: seq<nat>)
    requires AheadSorted(order, fractions, shuffled)
    ensures forall p, q :: 0 <= p < q < |order| ==> order[p] != order[q]
  {
    forall p, q | 0 <= p < q < |order| ensures order[p] != order[q] {
      assert order[p] in shuffled && Ahead(fractions, shuffled, order[p], order[q]);
    }
  }

  /** `n` distinct indices below `n` are all of them. */
  lemma AllIndices(order: seq<nat>, n: nat)
    requires Indices(order, n)
    ensures forall i: nat :: i < n ==> i in order
  {
    DistinctCount(order, n);
    BelowCount(n);
    forall x | x in Firsts(order, n) ensures x in Below(n) {
      assert x in order;
    }
    SubsetSameSize(Firsts(order, n), Below(n));
    forall i: nat | i < n ensures i in order {
      assert i in Below(n);
    }
  }

  ghost function Firsts(order: seq<nat>, n: nat): set<nat>
    requires n <= |order|
  {
    if n == 0 then {} else Firsts(order, n - 1) + {order[n - 1]}
  }

  lemma {:induction false} DistinctCount(order: seq<nat>, n: nat)
    requires n <= |order| && forall p, q :: 0 <= p < q < n ==> order[p] != order[q]
    ensures |Firsts(order, n)| == n
    ensures forall x :: x in Firsts(order, n) ==> exists p :: 0 <= p < n && order[p] == x
  {
    if n > 0 {
      DistinctCount(order, n - 1);
    }
  }

  ghost function Below(n: nat): set<nat> {
    if n == 0 then {} else Below(n - 1) + {n - 1}
  }

  lemma {:induction false} BelowCount(n: nat)
    ensures |Below(n)| == n
    ensures forall i: nat :: i in Below(n) <==> i < n
  {
    if n > 0 {
      BelowCount(n - 1);
    }
  }

  lemma SubsetSameSize(a: set<nat>, b: set<nat>)
    requires a <= b && |a| == |b|
    ensures a == b
  {
    assert b == a + (b - a);
  }

  /** The extra units went to the first `k` indices of the sorted order, and nowhere else. */
  ghost predicate BumpedFirst(counts: seq<int>, shares: seq<real>, order: seq<nat>, k: nat) {
    && |counts| == |shares| == |order|
    && (forall p :: 0 <= p < |order| ==> order[p] < |shares|)
    && (forall p :: 0 <= p < |order| ==> counts[order[p]] == shares[order[p]].Floor + if p < k then 1 else 0)
  }

  lemma BumpNext(counts: seq<int>, shares: seq<real>, order: seq<nat>, k: nat)
    requires BumpedFirst(counts, shares, order, k) && k < |order| && Indices(order, |shares|)
    ensures BumpedFirst(counts[order[k] := counts[order[k]] + 1], shares, order, k + 1)
  {
  }

  lemma BumpedFirstIsLargest(
    counts: seq<int>, total: int, shares: seq<real>, shuffled: seq<nat>, order: seq<nat>, k: nat)
    requires BumpedFirst(counts, shares, order, k) && SumInt(counts) == total && |shuffled| == |shares|
    requires AheadSorted(order, Fractions(shares), shuffled)
    requires forall i: nat :: i < |shares| ==> i in shuffled && i in order
    ensures LargestRemainder(counts, total, shares, shuffled)
  {
    forall i: nat | i < |counts| ensures counts[i] == shares[i].Floor || counts[i] == shares[i].Floor + 1 {
      assert i in order;
      var p :| 0 <= p < |order| && order[p] == i;
    }
    forall i: nat, j: nat | i < |counts| && j < |counts| && Bumped(counts, shares, i) && !Bumped(counts, shares, j)
      ensures Ahead(Fractions(shares), shuffled, i, j)
    {
      assert i in order;
      var p :| 0 <= p < |order| && order[p] == i;
      assert j in order;
      var q :| 0 <= q < |order| && order[q] == j;
      assert p < q;
    }
  }

  /** Every index keeps its floor: nothing is left over. */
  lemma FloorsAreLargest(total: int, shares: seq<real>, shuffled: seq<nat>)
    requires SumInt(Floors(shares)) == total && Indices(shuffled, |shares|)
    ensures LargestRemainder(Floors(shares), total, shares, shuffled)
  {
    AllIndices(shuffled, |shares|);
  }

  predicate HasNegative(weights: seq<real>) {
    exists i :: 0 <= i < |weights| && weights[i] < 0.0
  }

  /** One more for each of the first `remainder` indices of `order`. */
  method Bump(floors: seq<int>, ghost shares: seq<real>, order: seq<nat>, remainder: nat) returns (counts: seq<int>)
    requires BumpedFirst(floors, shares, order, 0) && Indices(order, |shares|) && remainder <= |order|
    ensures BumpedFirst(counts, shares, order, remainder) && SumInt(counts) == SumInt(floors) + remainder
  {
    counts := floors;
    for k := 0 to remainder
      invariant BumpedFirst(counts, shares, order, k) && SumInt(counts) == SumInt(floors) + k
    {
      BumpNext(counts, shares, order, k);
      SumUpdate(counts, order[k]);
      counts := counts[order[k] := counts[order[k]] + 1];
    }
  }

  /** Split `total` across `weights` so that the parts sum to `total` exactly. */
  method Allocate(total: int, weights: seq<real>, shuffled: seq<nat>) returns (r: Result<seq<int>, Error>)
    requires Indices(shuffled, |weights|)
    ensures total <= 0 || weights == [] ==> r == Ok(seq(|weights|, _ => 0))
    ensures total > 0 && weights != [] ==>
              && (r == Err(NegativeWeight) <==> HasNegative(weights))
              && (r == Err(NonPositiveSum) <==> !HasNegative(weights) && Sum(weights) <= 0.0)
              && (r.Ok? <==> !HasNegative(weights) && Sum(weights) > 0.0)
              && (r.Ok? ==> LargestRemainder(r.value, total, Shares(total, weights), shuffled))
  {
    if total <= 0 || weights == [] {
      return Ok(seq(|weights|, _ => 0));
    }
    if exists i :: 0 <= i < |weights| && weights[i] < 0.0 {
      return Err(NegativeWeight);
    }
    if Sum(weights) <= 0.0 {
      return Err(NonPositiveSum);
    }
    var exact := Shares(total, weights);
    var counts := Floors(exact);
    var remainder := total - SumInt(counts);
    SharesSumToTotal(total, weights);
    FloorsFallShort(exact);
    if remainder <= 0 {
      FloorsAreLargest(total, exact, shuffled);
      return Ok(counts);
    }
    ghost var sorted := SortedIndices(shuffled, Fractions(exact));
    counts := Bump(counts, exact, SortByFraction(shuffled, Fractions(exact)), remainder);
    BumpedFirstIsLargest(counts, total, exact, shuffled, sorted, remainder);
    return Ok(counts);
  }

  // ------------------------------------------------------------------
  // What the split is worth
  // ------------------------------------------------------------------

  lemma ProductNonNegative(a: real, b: real)
    requires a >= 0.0 && b >= 0.0
    ensures a * b >= 0.0
  {
  }

  /** What `units` cost at the price of one unit that makes the total irrelevant. */
  ghost function Price(units: int, theta: real): real {
    (1.0 - 2.0 * theta) * units as real
  }

  /** The deviation of one part, less its price. */
  ghost function Score(count: int, share: real, theta: real): real {
    Abs(count as real - share) - Price(count, theta)
  }

  ghost function ScoreSum(counts: seq<int>, shares: seq<real>, theta: real): real
    requires |counts| == |shares|
  {
    if counts == [] then 0.0
    else
      var n := |counts| - 1;
      ScoreSum(counts[..n], shares[..n], theta) + Score(counts[n], shares[n], theta)
  }

  lemma {:induction false} ScoreIsDeviation(counts: seq<int>, shares: seq<real>, theta: real)
    requires |counts| == |shares|
    ensures ScoreSum(counts, shares, theta) == Deviation(counts, shares) - Price(SumInt(counts), theta)
  {
    if counts != [] {
      var n := |counts| - 1;
      ScoreIsDeviation(counts[..n], shares[..n], theta);
      ScaleStep(SumInt(counts[..n]) as real, counts[n] as real, 1.0 - 2.0 * theta);
    }
  }

  /** Whatever the split, a part bumped for a fraction at or above `theta` cannot be improved on. */
  lemma PartIsBest(share: real, count: int, other: int, theta: real)
    requires 0.0 <= theta <= 1.0
    requires count == share.Floor || count == share.Floor + 1
    requires count == share.Floor + 1 ==> share - share.Floor as real >= theta
    requires count == share.Floor ==> share - share.Floor as real <= theta
    ensures Score(count, share, theta) <= Score(other, share, theta)
  {
    var f := share.Floor as real;
    var r := share - f;
    var d := other as real - f;
    if other >= share.Floor + 1 {
      assert d >= 1.0;
      ProductNonNegative(theta, d - 1.0);
    } else {
      assert -d >= 0.0;
      ProductNonNegative(1.0 - theta, -d);
    }
  }

  ghost predicate Threshold(counts: seq<int>, shares: seq<real>, theta: real) {
    && |counts| == |shares| && 0.0 <= theta <= 1.0
    && (forall i :: 0 <= i < |counts| ==>
          || (counts[i] == shares[i].Floor + 1 && shares[i] - shares[i].Floor as real >= theta)
          || (counts[i] == shares[i].Floor && shares[i] - shares[i].Floor as real <= theta))
  }

  lemma {:induction false} ThresholdIsBest(counts: seq<int>, others: seq<int>, shares: seq<real>, theta: real)
    requires Threshold(counts, shares, theta) && |others| == |shares|
    ensures ScoreSum(counts, shares, theta) <= ScoreSum(others, shares, theta)
  {
    if counts != [] {
      var n := |counts| - 1;
      ThresholdIsBest(counts[..n], others[..n], shares[..n], theta);
      PartIsBest(shares[n], counts[n], others[n], theta);
    }
  }

  /** The smallest bumped fraction among the first `n`, or 1 when none is bumped. */
  lemma {:induction false} SmallestBumped(counts: seq<int>, shares: seq<real>, n: nat) returns (theta: real)
    requires n <= |counts| == |shares|
    ensures 0.0 <= theta <= 1.0
    ensures forall i: nat :: i < n && Bumped(counts, shares, i) ==> shares[i] - shares[i].Floor as real >= theta
    ensures theta < 1.0 ==>
        exists i: nat :: i < n && Bumped(counts, shares, i) && shares[i] - shares[i].Floor as real == theta
  {
    theta := 1.0;
    if n > 0 {
      theta := SmallestBumped(counts, shares, n - 1);
      if Bumped(counts, shares, n - 1) && shares[n - 1] - shares[n - 1].Floor as real < theta {
        theta := shares[n - 1] - shares[n - 1].Floor as real;
      }
    }
  }

  lemma ThresholdExists(counts: seq<int>, total: int, shares: seq<real>, shuffled: seq<nat>) returns (theta: real)
    requires LargestRemainder(counts, total, shares, shuffled)
    ensures Threshold(counts, shares, theta)
  {
    theta := SmallestBumped(counts, shares, |counts|);
    forall i: nat | i < |counts| && !Bumped(counts, shares, i)
      ensures counts[i] == shares[i].Floor && shares[i] - shares[i].Floor as real <= theta
    {
      if theta < 1.0 {
        var b: nat :| b < |counts| && Bumped(counts, shares, b) && shares[b] - shares[b].Floor as real == theta;
        assert Ahead(Fractions(shares), shuffled, b, i);
      }
    }
  }

  /** No split of the same total deviates less from the exact shares, whatever the shuffle was. */
  lemma {:induction false} Optimal(
    counts: seq<int>, total: int, shares: seq<real>, shuffled: seq<nat>, others: seq<int>)
    requires LargestRemainder(counts, total, shares, shuffled)
    requires |others| == |shares| && SumInt(others) == total
    ensures Deviation(counts, shares) <= Deviation(others, shares)
  {
    var theta := ThresholdExists(counts, total, shares, shuffled);
    ThresholdIsBest(counts, others, shares, theta);
    ScoreIsDeviation(counts, shares, theta);
    ScoreIsDeviation(others, shares, theta);
  }

  lemma {:induction false} RoundedUpExceeds(counts: seq<int>, shares: seq<real>)
    requires |counts| == |shares| && forall i :: 0 <= i < |counts| ==> counts[i] as real >= shares[i]
    ensures SumInt(counts) as real >= Sum(shares)
    ensures (exists i :: 0 <= i < |counts| && counts[i] as real > shares[i]) ==> SumInt(counts) as real > Sum(shares)
  {
    if counts != [] {
      var n := |counts| - 1;
      RoundedUpExceeds(counts[..n], shares[..n]);
      if exists i :: 0 <= i < |counts| && counts[i] as real > shares[i] {
        var i :| 0 <= i < |counts| && counts[i] as real > shares[i];
        if i < n {
          assert counts[..n][i] as real > shares[..n][i];
        }
      }
    }
  }

  /** A part whose share is a whole number, zero included, gets exactly its share. */
  lemma WholeSharesExact(counts: seq<int>, total: int, shares: seq<real>, shuffled: seq<nat>, i: nat)
    requires LargestRemainder(counts, total, shares, shuffled) && Sum(shares) == total as real
    requires i < |shares| && shares[i] == shares[i].Floor as real
    ensures counts[i] as real == shares[i]
  {
    if Bumped(counts, shares, i) {
      forall j: nat | j < |counts| ensures counts[j] as real >= shares[j] {
        if !Bumped(counts, shares, j) {
          assert Ahead(Fractions(shares), shuffled, i, j);
        }
      }
      assert counts[i] as real > shares[i];
      RoundedUpExceeds(counts, shares);
      assert false;
    }
  }

  lemma {:induction false} ZeroWeightGetsZero(
    counts: seq<int>, total: int, weights: seq<real>, shuffled: seq<nat>, i: nat)
    requires Sum(weights) > 0.0 && LargestRemainder(counts, total, Shares(total, weights), shuffled)
    requires i < |weights| && weights[i] == 0.0
    ensures counts[i] == 0
  {
    SharesSumToTotal(total, weights);
    var shares := Shares(total, weights);
    assert shares[i] == 0.0;
    WholeSharesExact(counts, total, shares, shuffled, i);
  }

  /** The contract leaves no freedom: two largest-remainder splits of the same input are equal. */
  lemma SplitUnique(a: seq<int>, b: seq<int>, total: int, shares: seq<real>, shuffled: seq<nat>)
    requires LargestRemainder(a, total, shares, shuffled) && LargestRemainder(b, total, shares, shuffled)
    ensures a == b
  {
    if exists i: nat :: i < |a| && a[i] > b[i] {
      var i: nat :| i < |a| && a[i] > b[i];
      forall j: nat | j < |a| ensures a[j] >= b[j] {
        if a[j] < b[j] {
          assert Ahead(Fractions(shares), shuffled, i, j);
          NotBothAhead(Fractions(shares), shuffled, i, j);
          assert false;
        }
      }
      SumsDiffer(a, b, i);
    } else if exists i: nat :: i < |a| && b[i] > a[i] {
      var i: nat :| i < |a| && b[i] > a[i];
      SumsDiffer(b, a, i);
    }
  }

  lemma NotBothAhead(fractions: seq<real>, shuffled: seq<nat>, i: nat, j: nat)
    requires i in shuffled && j in shuffled && Ahead(fractions, shuffled, i, j)
    ensures !Ahead(fractions, shuffled, j, i)
  {
  }

  lemma {:induction false} SumsDiffer(a: seq<int>, b: seq<int>, i: nat)
    requires i < |a| == |b| && a[i] > b[i] && forall j :: 0 <= j < |a| ==> a[j] >= b[j]
    ensures SumInt(a) > SumInt(b)
  {
    var n := |a| - 1;
    if i < n {
      SumsDiffer(a[..n], b[..n], i);
    } else {
      SumsOrdered(a[..n], b[..n]);
    }
  }

  lemma {:induction false} SumsOrdered(a: seq<int>, b: seq<int>)
    requires |a| == |b| && forall j :: 0 <= j < |a| ==> a[j] >= b[j]
    ensures SumInt(a) >= SumInt(b)
  {
    if a != [] {
      SumsOrdered(a[..|a| - 1], b[..|b| - 1]);
    }
  }
}
