/** The audit of a schedule for double bookings: every overlapping pair, by a sweep. */
module Conflicts {
  import opened Slots

  /** Positions of two intervals, the lower first. */
  type Pair = (nat, nat)

  /** An interval still open in the sweep, by its end and its position. */
  type Open = (int, nat)

  predicate Before(a: Pair, b: Pair) {
    a.0 < b.0 || (a.0 == b.0 && a.1 < b.1)
  }

  function InOrder(i: nat, j: nat): Pair {
    if i < j then (i, j) else (j, i)
  }

  // ------------------------------------------------------------------
  // The order of the sweep
  // ------------------------------------------------------------------

  predicate Positions(order: seq<nat>, n: nat) {
    && (forall k :: 0 <= k < |order| ==> order[k] < n)
    && (forall i: nat :: i < n ==> i in order)
    && (forall k, l :: 0 <= k < l < |order| ==> order[k] != order[l])
  }

  predicate Within(order: seq<nat>, n: nat) {
    forall k :: 0 <= k < |order| ==> order[k] < n
  }

  predicate SweepOrder(order: seq<nat>, ivs: seq<Span>) {
    Within(order, |ivs|) && forall k, l :: 0 <= k < l < |order| ==> ivs[order[k]].start <= ivs[order[l]].start
  }

  lemma TailWithin(order: seq<nat>, n: nat)
    requires Within(order, n) && order != []
    ensures Within(order[1..], n) && order[0] < n
  {
  }

  /** Position `i` goes behind those that do not start later. */
  function InsertPosition(order: seq<nat>, i: nat, ivs: seq<Span>): seq<nat>
    requires i < |ivs| && Within(order, |ivs|)
  {
    if order == [] then [i]
    else
      TailWithin(order, |ivs|);
      if ivs[i].start < ivs[order[0]].start then [i] + order
      else [order[0]] + InsertPosition(order[1..], i, ivs)
  }

  lemma {:induction false} InsertPositionAdds(order: seq<nat>, i: nat, ivs: seq<Span>)
    requires i < |ivs| && Within(order, |ivs|)
    ensures multiset(InsertPosition(order, i, ivs)) == multiset(order + [i])
  {
    if order != [] {
      TailWithin(order, |ivs|);
      InsertPositionAdds(order[1..], i, ivs);
      assert order == [order[0]] + order[1..];
    }
  }

  lemma TailFits(order: seq<nat>, ivs: seq<Span>)
    requires SweepOrder(order, ivs) && order != []
    ensures SweepOrder(order[1..], ivs)
    ensures order[1..] != [] ==> ivs[order[0]].start <= ivs[order[1..][0]].start
  {
  }

  lemma ConsFits(first: nat, rest: seq<nat>, ivs: seq<Span>)
    requires first < |ivs| && SweepOrder(rest, ivs) && (rest != [] ==> ivs[first].start <= ivs[rest[0]].start)
    ensures SweepOrder([first] + rest, ivs)
  {
  }

  lemma {:induction false} InsertPositionFits(order: seq<nat>, i: nat, ivs: seq<Span>)
    requires SweepOrder(order, ivs) && i < |ivs|
    ensures SweepOrder(InsertPosition(order, i, ivs), ivs)
    ensures var r := InsertPosition(order, i, ivs);
      r != [] && r[0] == if order == [] || ivs[i].start < ivs[order[0]].start then i else order[0]
  {
    if order == [] || ivs[i].start < ivs[order[0]].start {
      ConsFits(i, order, ivs);
    } else {
      TailFits(order, ivs);
      InsertPositionFits(order[1..], i, ivs);
      ConsFits(order[0], InsertPosition(order[1..], i, ivs), ivs);
    }
  }

  function UpTo(n: nat): (r: seq<nat>)
    ensures |r| == n && forall i :: 0 <= i < n ==> r[i] == i
  {
    seq(n, i => i)
  }

  /** The first `n` positions by start, the source's stable sort. */
  function ByStart(n: nat, ivs: seq<Span>): (r: seq<nat>)
    requires n <= |ivs|
    ensures SweepOrder(r, ivs)
  {
    if n == 0 then []
    else
      InsertPositionFits(ByStart(n - 1, ivs), n - 1, ivs);
      InsertPosition(ByStart(n - 1, ivs), n - 1, ivs)
  }

  lemma {:induction false} UpToSnoc(n: nat)
    ensures UpTo(n + 1) == UpTo(n) + [n]
  {
    var a, b := UpTo(n + 1), UpTo(n) + [n];
    assert |a| == |b| && forall i :: 0 <= i < |a| ==> a[i] == b[i];
  }

  lemma SameWithOneMore(a: seq<nat>, b: seq<nat>, i: nat)
    requires multiset(a) == multiset(b)
    ensures multiset(a + [i]) == multiset(b + [i])
  {
  }

  lemma {:induction false} ByStartPermutes(n: nat, ivs: seq<Span>)
    requires n <= |ivs|
    ensures multiset(ByStart(n, ivs)) == multiset(UpTo(n))
  {
    if n == 0 {
      assert UpTo(0) == [];
    } else {
      var rest := ByStart(n - 1, ivs);
      ByStartPermutes(n - 1, ivs);
      InsertPositionAdds(rest, n - 1, ivs);
      UpToSnoc(n - 1);
      SameWithOneMore(rest, UpTo(n - 1), n - 1);
    }
  }

  lemma {:induction false} UpToHas(i: nat, n: nat)
    ensures i in multiset(UpTo(n)) <==> i < n
    ensures multiset(UpTo(n))[i] <= 1
  {
    if n > 0 {
      UpToHas(i, n - 1);
      UpToSnoc(n - 1);
    } else {
      assert UpTo(0) == [];
    }
  }

  lemma {:induction false} CountTwice(order: seq<nat>, k: nat, l: nat)
    requires k < l < |order| && order[k] == order[l]
    ensures multiset(order)[order[k]] >= 2
  {
    assert order == order[..l] + [order[l]] + order[l + 1..];
    assert order[..l][k] == order[k];
    assert order[k] in multiset(order[..l]);
  }

  lemma {:induction false} ByStartPositions(ivs: seq<Span>)
    ensures Positions(ByStart(|ivs|, ivs), |ivs|)
  {
    var order := ByStart(|ivs|, ivs);
    ByStartPermutes(|ivs|, ivs);
    forall i: nat ensures i in order <==> i < |ivs| {
      UpToHas(i, |ivs|);
      assert i in order <==> i in multiset(order);
    }
    forall k, l | 0 <= k < l < |order| ensures order[k] != order[l] {
      UpToHas(order[k], |ivs|);
      if order[k] == order[l] { CountTwice(order, k, l); }
    }
  }

  // ------------------------------------------------------------------
  // The pairs
  // ------------------------------------------------------------------

  predicate OverlappingPair(p: Pair, ivs: seq<Span>) {
    p.0 < p.1 < |ivs| && Overlaps(ivs[p.0], ivs[p.1])
  }

  /** Of the positions already swept, exactly the overlapping pairs, once each. */
  ghost predicate Swept(pairs: seq<Pair>, done: seq<nat>, ivs: seq<Span>) {
    && (forall p: Pair :: p in pairs <==> OverlappingPair(p, ivs) && p.0 in done && p.1 in done)
    && NoRepeats(pairs)
  }

  ghost predicate NoRepeats(pairs: seq<Pair>) {
    forall k, l :: 0 <= k < l < |pairs| ==> pairs[k] != pairs[l]
  }

  /** Of the positions swept, those whose interval has not ended at the instant. */
  ghost predicate StillOpen(open: set<Open>, done: seq<nat>, ivs: seq<Span>, from: int) {
    forall o: Open :: o in open <==> o.1 in done && o.1 < |ivs| && o.0 == ivs[o.1].end && o.0 > from
  }

  lemma {:induction false} FirstToEnd(open: set<Open>) returns (first: Open)
    requires open != {}
    ensures first in open && forall o :: o in open ==> first.0 <= o.0
    decreases |open|
  {
    first :| first in open;
    if open != {first} {
      var rest := FirstToEnd(open - {first});
      if rest.0 < first.0 { first := rest; }
    }
  }

  /** Pops what ended at or before the instant, first to end first. */
  method Evict(open: set<Open>, from: int) returns (left: set<Open>)
    ensures forall o :: o in left <==> o in open && o.0 > from
  {
    left := open;
    while left != {}
      invariant left <= open && forall o :: o in open && o.0 > from ==> o in left
      decreases |left|
    {
      ghost var least := FirstToEnd(left);
      var first :| first in left && forall o :: o in left ==> first.0 <= o.0;
      if first.0 > from { break; }
      left := left - {first};
    }
  }

  /** Each open interval makes a pair with the one that starts now. */
  method PairUp(open: set<Open>, idx: nat) returns (more: seq<Pair>)
    requires forall o, o' :: o in open && o' in open && o != o' ==> o.1 != o'.1
    requires forall o :: o in open ==> o.1 != idx
    ensures NoRepeats(more) && forall p: Pair :: p in more <==> exists o :: o in open && p == InOrder(o.1, idx)
  {
    var rest := open;
    more := [];
    while rest != {}
      invariant rest <= open && NoRepeats(more)
      invariant forall p: Pair :: p in more <==> exists o :: o in open - rest && p == InOrder(o.1, idx)
      decreases |rest|
    {
      var o :| o in rest;
      var pair := InOrder(o.1, idx);
      PairIsNew(more, open, rest, idx, o);
      ghost var before := more;
      more, rest := more + [pair], rest - {o};
      forall p: Pair ensures p in more <==> exists x :: x in open - rest && p == InOrder(x.1, idx) {
        assert p in more <==> p in before || p == pair;
        if p == pair { assert o in open - rest; }
        if p in before {
          var x :| x in open - (rest + {o}) && p == InOrder(x.1, idx);
          assert x in open - rest;
        }
      }
    }
  }

  lemma {:induction false} PairIsNew(more: seq<Pair>, open: set<Open>, rest: set<Open>, idx: nat, o: Open)
    requires rest <= open && o in rest && NoRepeats(more)
    requires forall o, o' :: o in open && o' in open && o != o' ==> o.1 != o'.1
    requires forall o :: o in open ==> o.1 != idx
    requires forall p: Pair :: p in more <==> exists x :: x in open - rest && p == InOrder(x.1, idx)
    ensures InOrder(o.1, idx) !in more && NoRepeats(more + [InOrder(o.1, idx)])
  {
    forall x | x in open - rest ensures InOrder(x.1, idx) != InOrder(o.1, idx) {
      assert x != o;
    }
  }

  // Their order

  function InsertPair(sorted: seq<Pair>, p: Pair): seq<Pair> {
    if sorted == [] || Before(p, sorted[0]) then [p] + sorted else [sorted[0]] + InsertPair(sorted[1..], p)
  }

  function SortPairs(pairs: seq<Pair>): seq<Pair> {
    if pairs == [] then [] else InsertPair(SortPairs(pairs[..|pairs| - 1]), pairs[|pairs| - 1])
  }

  predicate Increasing(pairs: seq<Pair>) {
    forall k, l :: 0 <= k < l < |pairs| ==> Before(pairs[k], pairs[l])
  }

  lemma ConsIncreasing(p: Pair, rest: seq<Pair>)
    requires Increasing(rest) && (rest != [] ==> Before(p, rest[0]))
    ensures Increasing([p] + rest)
  {
  }

  lemma {:induction false} InsertPairSorts(sorted: seq<Pair>, p: Pair)
    requires Increasing(sorted) && p !in sorted
    ensures Increasing(InsertPair(sorted, p)) && (forall x :: x in InsertPair(sorted, p) <==> x in sorted || x == p)
    ensures var r := InsertPair(sorted, p);
      r != [] && r[0] == if sorted == [] || Before(p, sorted[0]) then p else sorted[0]
  {
    if sorted == [] || Before(p, sorted[0]) {
      ConsIncreasing(p, sorted);
    } else {
      InsertPairSorts(sorted[1..], p);
      ConsIncreasing(sorted[0], InsertPair(sorted[1..], p));
      assert sorted == [sorted[0]] + sorted[1..];
    }
  }

  lemma {:induction false} SortsPairs(pairs: seq<Pair>)
    requires NoRepeats(pairs)
    ensures Increasing(SortPairs(pairs)) && forall x :: x in SortPairs(pairs) <==> x in pairs
  {
    if pairs != [] {
      var init, last := pairs[..|pairs| - 1], pairs[|pairs| - 1];
      assert pairs == init + [last];
      SortsPairs(init);
      InsertPairSorts(SortPairs(init), last);
    }
  }

  // ------------------------------------------------------------------
  // The sweep
  // ------------------------------------------------------------------

  /** The pairs found so far and those of the interval that starts now are the pairs so far. */
  lemma {:induction false} SweptNext(
    pairs: seq<Pair>, more: seq<Pair>, open: set<Open>, done: seq<nat>, idx: nat, ivs: seq<Span>)
    requires Within(done, |ivs|) && idx < |ivs| && idx !in done
    requires forall i :: i in done ==> ivs[i].start <= ivs[idx].start
    requires Swept(pairs, done, ivs) && StillOpen(open, done, ivs, ivs[idx].start)
    requires NoRepeats(more) && forall p: Pair :: p in more <==> exists o :: o in open && p == InOrder(o.1, idx)
    ensures Swept(pairs + more, done + [idx], ivs)
  {
    forall p: Pair
      ensures p in more <==> OverlappingPair(p, ivs) && p.0 in done + [idx] && p.1 in done + [idx]
                             && (p.0 == idx || p.1 == idx)
    {
      if p in more {
        var o :| o in open && p == InOrder(o.1, idx);
      }
      if OverlappingPair(p, ivs) && p.0 in done + [idx] && p.1 in done + [idx] && (p.0 == idx || p.1 == idx) {
        var other := if p.0 == idx then p.1 else p.0;
        assert (ivs[other].end, other) in open && p == InOrder(other, idx);
      }
    }
    Disjoint(pairs, more);
  }

  lemma Disjoint(a: seq<Pair>, b: seq<Pair>)
    requires NoRepeats(a) && NoRepeats(b) && forall p :: p in a ==> p !in b
    ensures NoRepeats(a + b)
  {
    forall k, l | 0 <= k < l < |a + b| ensures (a + b)[k] != (a + b)[l] {
      if k < |a| <= l { assert a[k] in a && b[l - |a|] in b; }
    }
  }

  /** Every pair of positions whose intervals overlap, once each and in order: no double booking is missed. */
  method FindOverlappingPairs(ivs: seq<Span>) returns (pairs: seq<Pair>)
    ensures forall p: Pair :: p in pairs <==> OverlappingPair(p, ivs)
    ensures Increasing(pairs)
  {
    var order := ByStart(|ivs|, ivs);
    ByStartPositions(ivs);
    var open: set<Open> := {};
    pairs := [];
    ghost var from := if order == [] then 0 else ivs[order[0]].start;
    for k := 0 to |order|
      invariant Swept(pairs, order[..k], ivs)
      invariant StillOpen(open, order[..k], ivs, from) && (k < |order| ==> from <= ivs[order[k]].start)
    {
      var idx := order[k];
      ghost var done := order[..k];
      assert order[..k + 1] == done + [idx];
      open := Evict(open, ivs[idx].start);
      assert StillOpen(open, done, ivs, ivs[idx].start);
      var more := PairUp(open, idx);
      SweptNext(pairs, more, open, done, idx, ivs);
      pairs := pairs + more;
      open, from := open + {(ivs[idx].end, idx)}, ivs[idx].start;
      assert StillOpen(open, done + [idx], ivs, ivs[idx].start);
    }
    assert order[..|order|] == order;
    SortsPairs(pairs);
    pairs := SortPairs(pairs);
  }
}
