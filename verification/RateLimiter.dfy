/**
  The booking page's sliding-window rate limiter.

  The limiter keeps, per client key, a list of accepted times, in an insertion-ordered dictionary
  whose front is the least recently called key.  It forgets eagerly: expired times are popped,
  fully expired keys are swept from the front, and keys beyond a cap are evicted.  The module
  relates that forgetful store to the complete log of everything that ever happened.
 */
module RateLimiter {
  import opened Wrappers

  type Key = string

  datatype Config = Config(maxRequests: int, window: real, maxKeys: nat)

  ghost predicate Distinct(order: seq<Key>) {
    forall i, j :: 0 <= i < j < |order| ==> order[i] != order[j]
  }

  /** The start of the window that ends at `now`. */
  function Since(c: Config, now: real): real {
    now - c.window
  }

  /** An insertion-ordered dictionary: `order` is the key order, `hits` the values. */
  datatype Store = Store(order: seq<Key>, hits: map<Key, seq<real>>) {
    ghost predicate Valid() {
      && Distinct(order)
      && (forall k :: k in order <==> k in hits)
    }
  }

  datatype Call = Call(key: Key, now: real)

  /** What happened, in full: every call with its answer, and every key lost to the cap. */
  datatype Event = Called(key: Key, at: real, accepted: bool) | CapEvicted(key: Key)

  // ------------------------------------------------------------------
  // One call, as a function on stores
  // ------------------------------------------------------------------

  function Lookup(s: Store, key: Key): seq<real> {
    if key in s.hits then s.hits[key] else []
  }

  function Without(order: seq<Key>, key: Key): (r: seq<Key>)
    ensures forall k :: k in r <==> k in order && k != key
  {
    if order == [] then []
    else if order[0] == key then Without(order[1..], key)
    else [order[0]] + Without(order[1..], key)
  }

  function Prune(hits: seq<real>, from: real): seq<real> {
    if hits != [] && hits[0] < from then Prune(hits[1..], from) else hits
  }

  /** The calling key's list after pruning and, if there is room, recording the call. */
  function Recorded(c: Config, s: Store, call: Call): seq<real> {
    var live := Prune(Lookup(s, call.key), Since(c, call.now));
    if |live| < c.maxRequests then live + [call.now] else live
  }

  function Accepts(c: Config, s: Store, call: Call): bool {
    |Prune(Lookup(s, call.key), Since(c, call.now))| < c.maxRequests
  }

  /** The store after the calling key was popped and re-inserted at the recent end. */
  function Touch(c: Config, s: Store, call: Call): Store {
    var list := Recorded(c, s, call);
    var popped := Store(Without(s.order, call.key), s.hits - {call.key});
    if list == [] then popped
    else Store(popped.order + [call.key], popped.hits[call.key := list])
  }

  function DropFront(s: Store): Store
    requires s.order != []
  {
    Store(s.order[1..], s.hits - {s.order[0]})
  }

  ghost predicate FrontExpired(s: Store, from: real) {
    && s.order != []
    && var list := Lookup(s, s.order[0]);
       list == [] || list[|list| - 1] < from
  }

  ghost function Sweep(s: Store, from: real): Store
    decreases |s.order|
  {
    if FrontExpired(s, from) then Sweep(DropFront(s), from) else s
  }

  ghost function Evict(s: Store, maxKeys: nat): Store
    decreases |s.order|
  {
    if |s.order| > maxKeys then Evict(DropFront(s), maxKeys) else s
  }

  ghost function Evictions(s: Store, maxKeys: nat): seq<Event>
    decreases |s.order|
  {
    if |s.order| > maxKeys then [CapEvicted(s.order[0])] + Evictions(DropFront(s), maxKeys) else []
  }

  ghost function Swept(c: Config, s: Store, call: Call): Store {
    Sweep(Touch(c, s, call), Since(c, call.now))
  }

  ghost function After(c: Config, s: Store, call: Call): Store {
    Evict(Swept(c, s, call), c.maxKeys)
  }

  ghost function Happened(c: Config, s: Store, call: Call): seq<Event> {
    [Called(call.key, call.now, Accepts(c, s, call))] + Evictions(Swept(c, s, call), c.maxKeys)
  }

  // ------------------------------------------------------------------
  // The complete log: the simple history the store stands in for
  // ------------------------------------------------------------------

  /** Times of the accepted calls of `key` since it was last evicted over the cap. */
  ghost function Accepted(log: seq<Event>, key: Key): seq<real> {
    if log == [] then []
    else
      var before := Accepted(log[..|log| - 1], key);
      match log[|log| - 1]
      case Called(k, at, accepted) => if k == key && accepted then before + [at] else before
      case CapEvicted(k) => if k == key then [] else before
  }

  ghost function LastCall(log: seq<Event>, key: Key): Option<real> {
    if log == [] then None
    else
      match log[|log| - 1]
      case Called(k, at, _) => if k == key then Some(at) else LastCall(log[..|log| - 1], key)
      case CapEvicted(_) => LastCall(log[..|log| - 1], key)
  }

  ghost function CountFrom(times: seq<real>, from: real): nat {
    if times == [] then 0
    else (if times[0] >= from then 1 else 0) + CountFrom(times[1..], from)
  }

  ghost predicate NonDecreasing(times: seq<real>) {
    forall i, j :: 0 <= i <= j < |times| ==> times[i] <= times[j]
  }

  ghost predicate Chronological(calls: seq<Call>) {
    forall i, j :: 0 <= i <= j < |calls| ==> calls[i].now <= calls[j].now
  }

  datatype Run = Run(store: Store, log: seq<Event>)

  /** The limiter run on a sequence of calls, from empty. */
  ghost function RunAll(c: Config, calls: seq<Call>): Run {
    if calls == [] then Run(Store([], map[]), [])
    else
      Next(c, RunAll(c, calls[..|calls| - 1]), calls[|calls| - 1])
  }

  ghost function Next(c: Config, run: Run, call: Call): Run {
    Run(After(c, run.store, call), run.log + Happened(c, run.store, call))
  }

  // ------------------------------------------------------------------
  // What ties store and log together
  // ------------------------------------------------------------------

  /** `list` is what remains of `history` once a prefix older than `from` was forgotten. */
  ghost predicate Remembers(list: seq<real>, history: seq<real>, from: real) {
    || list == history
    || (history != [] && history[0] < from && Remembers(list, history[1..], from))
  }

  /** Facts about the log alone: histories are sorted and end no later than the key's last call. */
  ghost predicate HistorySound(log: seq<Event>, clock: real, k: Key) {
    && NonDecreasing(Accepted(log, k))
    && (Accepted(log, k) != [] ==> LastCall(log, k).Some?)
    && (LastCall(log, k).Some? ==> LastCall(log, k).value <= clock)
    && (forall i :: 0 <= i < |Accepted(log, k)| ==> Accepted(log, k)[i] <= LastCall(log, k).value)
  }

  ghost predicate Remembered(c: Config, s: Store, log: seq<Event>, clock: real, k: Key) {
    Remembers(Lookup(s, k), Accepted(log, k), Since(c, clock))
  }

  /** The key order is the order of the keys' last calls. */
  ghost predicate ByLastCall(order: seq<Key>, log: seq<Event>) {
    && (forall i :: 0 <= i < |order| ==> LastCall(log, order[i]).Some?)
    && (forall i, j :: 0 <= i <= j < |order| ==> LastCall(log, order[i]).value <= LastCall(log, order[j]).value)
  }

  ghost predicate Ordered(c: Config, s: Store, log: seq<Event>) {
    && s.Valid()
    && (forall k :: k in s.hits ==> s.hits[k] != [] && |s.hits[k]| <= c.maxRequests)
    && ByLastCall(s.order, log)
  }

  /** The invariant during a call. */
  ghost predicate Loose(c: Config, s: Store, log: seq<Event>, clock: real) {
    && Ordered(c, s, log)
    && (forall k :: HistorySound(log, clock, k))
    && (forall k :: Remembered(c, s, log, clock, k))
  }

  /** Every tracked key was called, accepted or not, within the last window. */
  ghost predicate RecentlyCalled(c: Config, s: Store, log: seq<Event>, clock: real) {
    forall k :: k in s.order ==> LastCall(log, k).Some? && LastCall(log, k).value >= Since(c, clock)
  }

  /** The invariant between calls. */
  ghost predicate Consistent(c: Config, s: Store, log: seq<Event>, clock: real) {
    && Loose(c, s, log, clock)
    && RecentlyCalled(c, s, log, clock)
    && |s.order| <= c.maxKeys
  }

  // ------------------------------------------------------------------
  // Small facts about the list operations
  // ------------------------------------------------------------------

  lemma WithoutKeepsOrder(order: seq<Key>, key: Key)
    requires Distinct(order)
    ensures Distinct(Without(order, key))
  {
    forall i, j | 0 <= i < j < |Without(order, key)|
      ensures Without(order, key)[i] != Without(order, key)[j]
    {
      var i', j' := WithoutIsSubsequence(order, key, i, j);
    }
  }

  /** Removing a key keeps the relative order of the others. */
  lemma {:induction false} WithoutIsSubsequence(order: seq<Key>, key: Key, i: nat, j: nat)
    returns (i': nat, j': nat)
    requires i <= j < |Without(order, key)|
    ensures i' <= j' < |order| && (i < j ==> i' < j')
    ensures order[i'] == Without(order, key)[i] && order[j'] == Without(order, key)[j]
  {
    if order[0] == key {
      i', j' := WithoutIsSubsequence(order[1..], key, i, j);
      i', j' := i' + 1, j' + 1;
    } else if j == 0 {
      i', j' := 0, 0;
    } else if i == 0 {
      var _, j'' := WithoutIsSubsequence(order[1..], key, j - 1, j - 1);
      i', j' := 0, j'' + 1;
    } else {
      i', j' := WithoutIsSubsequence(order[1..], key, i - 1, j - 1);
      i', j' := i' + 1, j' + 1;
    }
  }

  lemma {:induction false} CountFromAll(times: seq<real>, from: real)
    requires forall i :: 0 <= i < |times| ==> times[i] >= from
    ensures CountFrom(times, from) == |times|
  {
    if times != [] {
      CountFromAll(times[1..], from);
    }
  }

  /** Popping expired times off the front of a sorted list keeps exactly the live ones. */
  lemma {:induction false} PruneKeepsLive(list: seq<real>, from: real)
    requires NonDecreasing(list)
    ensures Remembers(Prune(list, from), list, from)
    ensures |Prune(list, from)| <= |list|
    ensures forall i :: 0 <= i < |Prune(list, from)| ==> Prune(list, from)[i] >= from
  {
    if list != [] && list[0] < from {
      PruneKeepsLive(list[1..], from);
    }
  }

  lemma {:induction false} RememberedSorted(list: seq<real>, history: seq<real>, from: real)
    requires Remembers(list, history, from) && NonDecreasing(history)
    ensures NonDecreasing(list)
  {
    if list != history {
      RememberedSorted(list, history[1..], from);
    }
  }

  lemma {:induction false} RememberedLast(list: seq<real>, history: seq<real>, from: real)
    requires Remembers(list, history, from) && list != []
    ensures history != [] && history[|history| - 1] == list[|list| - 1]
  {
    if list != history {
      RememberedLast(list, history[1..], from);
    }
  }

  lemma {:induction false} RemembersTwice(
    live: seq<real>, list: seq<real>, history: seq<real>, earlier: real, from: real)
    requires Remembers(list, history, earlier) && Remembers(live, list, from) && earlier <= from
    ensures Remembers(live, history, from)
  {
    if list != history {
      RemembersTwice(live, list, history[1..], earlier, from);
    }
  }

  lemma {:induction false} RememberedCount(live: seq<real>, history: seq<real>, from: real)
    requires Remembers(live, history, from)
    requires forall i :: 0 <= i < |live| ==> live[i] >= from
    ensures |live| == CountFrom(history, from)
  {
    if live == history {
      CountFromAll(live, from);
    } else {
      RememberedCount(live, history[1..], from);
    }
  }

  lemma {:induction false} AppendRemembers(list: seq<real>, history: seq<real>, from: real, now: real)
    requires Remembers(list, history, from)
    ensures Remembers(list + [now], history + [now], from)
  {
    if list != history {
      AppendRemembers(list, history[1..], from, now);
      assert (history + [now])[1..] == history[1..] + [now];
    }
  }

  lemma {:induction false} AllForgettable(history: seq<real>, from: real)
    requires forall i :: 0 <= i < |history| ==> history[i] < from
    ensures Remembers([], history, from)
  {
    if history != [] {
      AllForgettable(history[1..], from);
    }
  }

  /** What pruning keeps of a remembered list is what the whole history holds from `from` on. */
  lemma LiveCount(list: seq<real>, history: seq<real>, earlier: real, from: real)
    requires Remembers(list, history, earlier) && NonDecreasing(history) && earlier <= from
    ensures Remembers(Prune(list, from), history, from)
    ensures |Prune(list, from)| == CountFrom(history, from)
  {
    RememberedSorted(list, history, earlier);
    PruneKeepsLive(list, from);
    RemembersTwice(Prune(list, from), list, history, earlier, from);
    RememberedCount(Prune(list, from), history, from);
  }

  // ------------------------------------------------------------------
  // Each phase of a call keeps the invariant
  // ------------------------------------------------------------------

  lemma CalledLog(log: seq<Event>, e: Event, k: Key)
    requires e.Called?
    ensures Accepted(log + [e], k) == if k == e.key && e.accepted then Accepted(log, k) + [e.at] else Accepted(log, k)
    ensures LastCall(log + [e], k) == if k == e.key then Some(e.at) else LastCall(log, k)
  {
    assert (log + [e])[..|log + [e]| - 1] == log;
  }

  lemma EvictedLog(log: seq<Event>, front: Key, k: Key)
    ensures Accepted(log + [CapEvicted(front)], k) == if k == front then [] else Accepted(log, k)
    ensures LastCall(log + [CapEvicted(front)], k) == LastCall(log, k)
  {
    assert (log + [CapEvicted(front)])[..|log + [CapEvicted(front)]| - 1] == log;
  }

  lemma CalledSound(log: seq<Event>, clock: real, e: Event, k: Key)
    requires HistorySound(log, clock, k) && e.Called? && clock <= e.at
    ensures HistorySound(log + [e], e.at, k)
  {
    CalledLog(log, e, k);
  }

  lemma TouchLookup(c: Config, s: Store, call: Call, k: Key)
    requires s.Valid()
    ensures Lookup(Touch(c, s, call), k) == if k == call.key then Recorded(c, s, call) else Lookup(s, k)
  {
  }

  lemma RecordRemembers(list: seq<real>, history: seq<real>, earlier: real, from: real, now: real, accepted: bool)
    requires Remembers(list, history, earlier) && NonDecreasing(history) && earlier <= from
    ensures var live := Prune(list, from);
            Remembers(if accepted then live + [now] else live, if accepted then history + [now] else history, from)
  {
    LiveCount(list, history, earlier, from);
    AppendRemembers(Prune(list, from), history, from, now);
  }

  /** The calling key's new list remembers its new history. */
  lemma RecordedRemembers(c: Config, s: Store, history: seq<real>, clock: real, call: Call)
    requires clock <= call.now
    requires Remembers(Lookup(s, call.key), history, Since(c, clock)) && NonDecreasing(history)
    ensures Remembers(
              Recorded(c, s, call), if Accepts(c, s, call) then history + [call.now] else history, Since(c, call.now))
  {
    RecordRemembers(Lookup(s, call.key), history, Since(c, clock), Since(c, call.now), call.now, Accepts(c, s, call));
  }

  lemma OthersRemember(list: seq<real>, history: seq<real>, earlier: real, from: real)
    requires Remembers(list, history, earlier) && earlier <= from
    ensures Remembers(list, history, from)
  {
    RemembersTwice(list, list, history, earlier, from);
  }

  lemma {:induction false} TouchRemembers(
    c: Config, s: Store, log: seq<Event>, clock: real, call: Call, e: Event, k: Key)
    requires s.Valid() && clock <= call.now && e == Called(call.key, call.now, Accepts(c, s, call))
    requires Remembered(c, s, log, clock, k) && NonDecreasing(Accepted(log, k))
    ensures Remembers(Lookup(Touch(c, s, call), k), Accepted(log + [e], k), Since(c, call.now))
  {
    TouchLookup(c, s, call, k);
    CalledLog(log, e, k);
    if k == call.key {
      RecordedRemembers(c, s, Accepted(log, k), clock, call);
    } else {
      OthersRemember(Lookup(s, k), Accepted(log, k), Since(c, clock), Since(c, call.now));
    }
  }

  lemma AcceptsByHistory(c: Config, s: Store, log: seq<Event>, clock: real, call: Call)
    requires Remembered(c, s, log, clock, call.key) && NonDecreasing(Accepted(log, call.key)) && clock <= call.now
    ensures Accepts(c, s, call) <==> CountFrom(Accepted(log, call.key), Since(c, call.now)) < c.maxRequests
  {
    LiveCount(Lookup(s, call.key), Accepted(log, call.key), Since(c, clock), Since(c, call.now));
  }

  lemma AppendDistinct(order: seq<Key>, key: Key)
    requires Distinct(order) && key !in order
    ensures Distinct(order + [key])
  {
  }

  lemma TouchValid(c: Config, s: Store, call: Call)
    requires s.Valid()
    ensures Touch(c, s, call).Valid()
  {
    WithoutKeepsOrder(s.order, call.key);
    AppendDistinct(Without(s.order, call.key), call.key);
  }

  lemma WithoutByLastCall(order: seq<Key>, log: seq<Event>, e: Event)
    requires ByLastCall(order, log) && e.Called?
    ensures ByLastCall(Without(order, e.key), log + [e])
  {
    var rest := Without(order, e.key);
    forall i, j | 0 <= i <= j < |rest|
      ensures LastCall(log + [e], rest[i]).Some? && LastCall(log + [e], rest[j]).Some?
      ensures LastCall(log + [e], rest[i]).value <= LastCall(log + [e], rest[j]).value
    {
      assert rest[i] in rest && rest[j] in rest;
      CalledLog(log, e, rest[i]);
      CalledLog(log, e, rest[j]);
      var i', j' := WithoutIsSubsequence(order, e.key, i, j);
    }
  }

  lemma {:induction false} TouchByLastCall(c: Config, s: Store, log: seq<Event>, clock: real, call: Call, e: Event)
    requires s.Valid() && ByLastCall(s.order, log) && (forall k :: HistorySound(log, clock, k)) && clock <= call.now
    requires e == Called(call.key, call.now, Accepts(c, s, call))
    ensures ByLastCall(Touch(c, s, call).order, log + [e])
  {
    WithoutByLastCall(s.order, log, e);
    var rest := Without(s.order, call.key);
    forall i | 0 <= i < |rest| ensures LastCall(log + [e], rest[i]).value <= call.now {
      assert HistorySound(log, clock, rest[i]);
      CalledLog(log, e, rest[i]);
    }
    CalledLog(log, e, call.key);
  }

  lemma TouchSound(c: Config, s: Store, log: seq<Event>, clock: real, call: Call, e: Event)
    requires Loose(c, s, log, clock) && clock <= call.now
    requires e == Called(call.key, call.now, Accepts(c, s, call))
    ensures forall k :: HistorySound(log + [e], call.now, k)
    ensures forall k :: Remembered(c, Touch(c, s, call), log + [e], call.now, k)
  {
    forall k ensures HistorySound(log + [e], call.now, k) {
      CalledSound(log, clock, e, k);
    }
    forall k ensures Remembered(c, Touch(c, s, call), log + [e], call.now, k) {
      assert HistorySound(log, clock, k) && Remembered(c, s, log, clock, k);
      TouchRemembers(c, s, log, clock, call, e, k);
    }
  }

  lemma TouchBounded(c: Config, s: Store, call: Call)
    requires s.Valid() && (forall k :: k in s.hits ==> s.hits[k] != [] && |s.hits[k]| <= c.maxRequests)
    requires NonDecreasing(Lookup(s, call.key))
    ensures forall k :: k in Touch(c, s, call).hits ==>
              Touch(c, s, call).hits[k] != [] && |Touch(c, s, call).hits[k]| <= c.maxRequests
  {
    PruneKeepsLive(Lookup(s, call.key), Since(c, call.now));
  }

  lemma {:induction false} TouchKeeps(c: Config, s: Store, log: seq<Event>, clock: real, call: Call, e: Event)
    requires Loose(c, s, log, clock) && clock <= call.now
    requires e == Called(call.key, call.now, Accepts(c, s, call))
    ensures Loose(c, Touch(c, s, call), log + [e], call.now)
    ensures e.accepted <==> CountFrom(Accepted(log, call.key), Since(c, call.now)) < c.maxRequests
  {
    assert HistorySound(log, clock, call.key) && Remembered(c, s, log, clock, call.key);
    RememberedSorted(Lookup(s, call.key), Accepted(log, call.key), Since(c, clock));
    AcceptsByHistory(c, s, log, clock, call);
    TouchValid(c, s, call);
    TouchBounded(c, s, call);
    TouchByLastCall(c, s, log, clock, call, e);
    TouchSound(c, s, log, clock, call, e);
  }

  lemma DropFrontValid(s: Store)
    requires s.Valid() && s.order != []
    ensures DropFront(s).Valid()
  {
    assert s.order == [s.order[0]] + s.order[1..];
    forall k ensures k in DropFront(s).order <==> k in DropFront(s).hits {
      if k in s.order[1..] {
        var i :| 0 <= i < |s.order[1..]| && s.order[1..][i] == k;
        assert s.order[i + 1] == k;
      }
    }
  }

  lemma DropFrontOrdered(c: Config, s: Store, log: seq<Event>, log': seq<Event>)
    requires Ordered(c, s, log) && s.order != []
    requires forall k :: LastCall(log', k) == LastCall(log, k)
    ensures Ordered(c, DropFront(s), log')
  {
    DropFrontValid(s);
    var rest := s.order[1..];
    forall i, j | 0 <= i <= j < |rest|
      ensures LastCall(log', rest[i]).Some? && LastCall(log', rest[j]).Some?
      ensures LastCall(log', rest[i]).value <= LastCall(log', rest[j]).value
    {
      assert rest[i] == s.order[i + 1] && rest[j] == s.order[j + 1];
      assert LastCall(log', rest[i]) == LastCall(log, s.order[i + 1]);
      assert LastCall(log', rest[j]) == LastCall(log, s.order[j + 1]);
    }
  }

  lemma ExpiredForgettable(list: seq<real>, history: seq<real>, from: real)
    requires Remembers(list, history, from) && NonDecreasing(history)
    requires list == [] || list[|list| - 1] < from
    ensures Remembers([], history, from)
  {
    if list != [] {
      RememberedLast(list, history, from);
      AllForgettable(history, from);
    }
  }

  /** Forgetting a fully expired front key forgets nothing that could still count. */
  lemma {:induction false} DropExpiredKeeps(c: Config, s: Store, log: seq<Event>, clock: real)
    requires Loose(c, s, log, clock) && FrontExpired(s, Since(c, clock))
    ensures Loose(c, DropFront(s), log, clock)
  {
    DropFrontOrdered(c, s, log, log);
    forall k ensures Remembered(c, DropFront(s), log, clock, k) {
      assert Remembered(c, s, log, clock, k) && HistorySound(log, clock, k);
      if k == s.order[0] {
        ExpiredForgettable(Lookup(s, k), Accepted(log, k), Since(c, clock));
      } else {
        assert Lookup(DropFront(s), k) == Lookup(s, k);
      }
    }
  }

  /** The key order is by last call, so a live front key vouches for every key behind it. */
  lemma LiveFrontVouches(c: Config, s: Store, log: seq<Event>, clock: real)
    requires Loose(c, s, log, clock) && !FrontExpired(s, Since(c, clock))
    ensures RecentlyCalled(c, s, log, clock)
  {
    if s.order != [] {
      var front := s.order[0];
      assert HistorySound(log, clock, front) && Remembered(c, s, log, clock, front);
      var list, history := Lookup(s, front), Accepted(log, front);
      RememberedLast(list, history, Since(c, clock));
      forall k | k in s.order ensures LastCall(log, k).Some? && LastCall(log, k).value >= Since(c, clock) {
        var i :| 0 <= i < |s.order| && s.order[i] == k;
        assert LastCall(log, s.order[0]).value <= LastCall(log, s.order[i]).value;
      }
    }
  }

  lemma {:induction false} SweepKeeps(c: Config, s: Store, log: seq<Event>, clock: real)
    requires Loose(c, s, log, clock)
    ensures Loose(c, Sweep(s, Since(c, clock)), log, clock)
    ensures RecentlyCalled(c, Sweep(s, Since(c, clock)), log, clock)
    decreases |s.order|
  {
    if FrontExpired(s, Since(c, clock)) {
      DropExpiredKeeps(c, s, log, clock);
      SweepKeeps(c, DropFront(s), log, clock);
    } else {
      LiveFrontVouches(c, s, log, clock);
    }
  }

  lemma EvictedSound(c: Config, s: Store, log: seq<Event>, clock: real, k: Key)
    requires s.order != [] && HistorySound(log, clock, k) && Remembered(c, s, log, clock, k)
    ensures HistorySound(log + [CapEvicted(s.order[0])], clock, k)
    ensures Remembered(c, DropFront(s), log + [CapEvicted(s.order[0])], clock, k)
  {
    EvictedLog(log, s.order[0], k);
    if k != s.order[0] { assert Lookup(DropFront(s), k) == Lookup(s, k); }
  }

  lemma {:induction false} EvictOneKeeps(c: Config, s: Store, log: seq<Event>, clock: real)
    requires Loose(c, s, log, clock) && RecentlyCalled(c, s, log, clock) && s.order != []
    ensures Loose(c, DropFront(s), log + [CapEvicted(s.order[0])], clock)
    ensures RecentlyCalled(c, DropFront(s), log + [CapEvicted(s.order[0])], clock)
  {
    var s', log' := DropFront(s), log + [CapEvicted(s.order[0])];
    forall k ensures HistorySound(log', clock, k) && Remembered(c, s', log', clock, k) {
      assert HistorySound(log, clock, k) && Remembered(c, s, log, clock, k);
      EvictedSound(c, s, log, clock, k);
    }
    forall k ensures LastCall(log', k) == LastCall(log, k) {
      EvictedLog(log, s.order[0], k);
    }
    DropFrontOrdered(c, s, log, log');
    assert forall k :: k in s'.order ==> k in s.order;
  }

  lemma {:induction false} EvictKeeps(c: Config, s: Store, log: seq<Event>, clock: real)
    requires Loose(c, s, log, clock) && RecentlyCalled(c, s, log, clock)
    ensures Consistent(c, Evict(s, c.maxKeys), log + Evictions(s, c.maxKeys), clock)
    decreases |s.order|
  {
    if |s.order| > c.maxKeys {
      EvictOneKeeps(c, s, log, clock);
      var log' := log + [CapEvicted(s.order[0])];
      EvictKeeps(c, DropFront(s), log', clock);
      assert log + Evictions(s, c.maxKeys) == log' + Evictions(DropFront(s), c.maxKeys);
    } else {
      assert log + [] == log;
    }
  }

  // ------------------------------------------------------------------
  // Whole runs
  // ------------------------------------------------------------------

  /** `log` is what a limiter that never forgets would have answered, given the same cap evictions. */
  ghost predicate Faithful(c: Config, log: seq<Event>) {
    forall p :: 0 <= p < |log| && log[p].Called? ==>
      (log[p].accepted <==> CountFrom(Accepted(log[..p], log[p].key), Since(c, log[p].at)) < c.maxRequests)
  }

  lemma {:induction false} EvictionsOnly(s: Store, maxKeys: nat)
    ensures forall e :: e in Evictions(s, maxKeys) ==> e.CapEvicted?
    decreases |s.order|
  {
    if |s.order| > maxKeys {
      EvictionsOnly(DropFront(s), maxKeys);
    }
  }

  lemma {:induction false} FaithfulExtend(c: Config, log: seq<Event>, more: seq<Event>)
    requires Faithful(c, log) && more != [] && more[0].Called?
    requires more[0].accepted <==> CountFrom(Accepted(log, more[0].key), Since(c, more[0].at)) < c.maxRequests
    requires forall e :: e in more[1..] ==> e.CapEvicted?
    ensures Faithful(c, log + more)
  {
    forall p | 0 < p < |more| ensures more[p].CapEvicted? {
      assert more[p] == more[1..][p - 1];
    }
    forall p | 0 <= p < |log + more| && (log + more)[p].Called?
      ensures var e := (log + more)[p];
              e.accepted <==> CountFrom(Accepted((log + more)[..p], e.key), Since(c, e.at)) < c.maxRequests
    {
      if p < |log| {
        assert (log + more)[..p] == log[..p];
      } else if p == |log| {
        assert (log + more)[..p] == log;
      }
    }
  }

  lemma {:induction false} FinishKeeps(c: Config, touched: Store, log: seq<Event>, now: real)
    requires Loose(c, touched, log, now)
    ensures var swept := Sweep(touched, Since(c, now));
            Consistent(c, Evict(swept, c.maxKeys), log + Evictions(swept, c.maxKeys), now)
  {
    SweepKeeps(c, touched, log, now);
    EvictKeeps(c, Sweep(touched, Since(c, now)), log, now);
  }

  lemma HappenedLog(c: Config, s: Store, log: seq<Event>, call: Call)
    ensures log + Happened(c, s, call)
            == log + [Called(call.key, call.now, Accepts(c, s, call))] + Evictions(Swept(c, s, call), c.maxKeys)
    ensures Happened(c, s, call)[1..] == Evictions(Swept(c, s, call), c.maxKeys)
  {
  }

  lemma {:induction false} FinishCall(
    c: Config, s: Store, log: seq<Event>, call: Call, touched: Store, log': seq<Event>)
    requires touched == Touch(c, s, call)
    requires log' == log + [Called(call.key, call.now, Accepts(c, s, call))]
    requires Loose(c, touched, log', call.now)
    ensures Consistent(c, After(c, s, call), log + Happened(c, s, call), call.now)
  {
    HappenedLog(c, s, log, call);
    FinishKeeps(c, touched, log', call.now);
    var swept := Sweep(touched, Since(c, call.now));
    assert swept == Swept(c, s, call);
    assert log + Happened(c, s, call) == log' + Evictions(swept, c.maxKeys);
    assert After(c, s, call) == Evict(swept, c.maxKeys);
  }

  /** One call keeps the invariant and answers as the log dictates. */
  lemma {:induction false} AllowKeeps(c: Config, s: Store, log: seq<Event>, clock: real, call: Call)
    requires Loose(c, s, log, clock) && clock <= call.now
    ensures Consistent(c, After(c, s, call), log + Happened(c, s, call), call.now)
    ensures Accepts(c, s, call) <==> CountFrom(Accepted(log, call.key), Since(c, call.now)) < c.maxRequests
  {
    var e := Called(call.key, call.now, Accepts(c, s, call));
    TouchKeeps(c, s, log, clock, call, e);
    FinishCall(c, s, log, call, Touch(c, s, call), log + [e]);
  }

  lemma AllowFaithful(c: Config, s: Store, log: seq<Event>, call: Call)
    requires Faithful(c, log)
    requires Accepts(c, s, call) <==> CountFrom(Accepted(log, call.key), Since(c, call.now)) < c.maxRequests
    ensures Faithful(c, log + Happened(c, s, call))
  {
    HappenedLog(c, s, log, call);
    EvictionsOnly(Swept(c, s, call), c.maxKeys);
    FaithfulExtend(c, log, Happened(c, s, call));
  }

  lemma EmptyConsistent(c: Config, clock: real)
    ensures Consistent(c, Store([], map[]), [], clock)
  {
  }

  ghost predicate Sound(c: Config, run: Run, clock: real) {
    Consistent(c, run.store, run.log, clock) && Faithful(c, run.log)
  }

  lemma {:induction false} NextSound(c: Config, run: Run, clock: real, call: Call)
    requires Sound(c, run, clock) && clock <= call.now
    ensures Sound(c, Next(c, run, call), call.now)
  {
    AllowKeeps(c, run.store, run.log, clock, call);
    AllowFaithful(c, run.store, run.log, call);
  }

  /** Over every run in time order, the store stays tied to the log and the log is faithful. */
  lemma {:induction false} RunSound(c: Config, calls: seq<Call>, clock: real)
    requires Chronological(calls) && (calls != [] ==> clock == calls[|calls| - 1].now)
    ensures Sound(c, RunAll(c, calls), clock)
  {
    if calls == [] {
      EmptyConsistent(c, clock);
    } else {
      var n := |calls| - 1;
      var earlier := if n == 0 then clock else calls[n - 1].now;
      RunSound(c, calls[..n], earlier);
      NextSound(c, RunAll(c, calls[..n]), earlier, calls[n]);
    }
  }

  lemma {:induction false} LastSound(c: Config, calls: seq<Call>, call: Call) returns (clock: real)
    requires Chronological(calls + [call])
    ensures clock <= call.now && Sound(c, RunAll(c, calls), clock)
  {
    clock := if calls == [] then call.now else calls[|calls| - 1].now;
    assert forall i :: 0 <= i < |calls| ==> (calls + [call])[i] == calls[i];
    assert (calls + [call])[|calls|] == call;
    RunSound(c, calls, clock);
  }

  /** The answer of the forgetful store is the answer of the complete log. */
  lemma AllowRefinesLog(c: Config, calls: seq<Call>, call: Call)
    requires Chronological(calls + [call])
    ensures Accepts(c, RunAll(c, calls).store, call) <==>
            CountFrom(Accepted(RunAll(c, calls).log, call.key), Since(c, call.now)) < c.maxRequests
  {
    var clock := LastSound(c, calls, call);
    AllowKeeps(c, RunAll(c, calls).store, RunAll(c, calls).log, clock, call);
  }

  // ------------------------------------------------------------------
  // The sliding window over whole runs
  // ------------------------------------------------------------------

  /** Accepted calls of `key` in `log[i..j]` whose time lies in the closed interval [a, b]. */
  ghost function AcceptedWithin(log: seq<Event>, key: Key, i: nat, j: nat, a: real, b: real): nat
    requires i <= j <= |log|
  {
    if i == j then 0
    else
      AcceptedWithin(log, key, i, j - 1, a, b)
      + (if log[j - 1].Called? && log[j - 1].key == key && log[j - 1].accepted && a <= log[j - 1].at <= b then 1 else 0)
  }

  lemma {:induction false} CountFromAppend(times: seq<real>, t: real, from: real)
    ensures CountFrom(times + [t], from) == CountFrom(times, from) + if t >= from then 1 else 0
  {
    if times != [] {
      assert (times + [t])[1..] == times[1..] + [t];
      CountFromAppend(times[1..], t, from);
    }
  }

  lemma {:induction false} WithinHistory(log: seq<Event>, key: Key, i: nat, j: nat, a: real, b: real, from: real)
    requires i <= j <= |log| && from <= a
    requires forall p :: i <= p < j ==> log[p] != CapEvicted(key)
    ensures AcceptedWithin(log, key, i, j, a, b) <= CountFrom(Accepted(log[..j], key), from)
  {
    if i < j {
      WithinHistory(log, key, i, j - 1, a, b, from);
      assert log[..j][..j - 1] == log[..j - 1];
      var e := log[j - 1];
      if e.Called? && e.key == key && e.accepted {
        CountFromAppend(Accepted(log[..j - 1], key), e.at, from);
      }
    }
  }

  /** A faithful log holds at most `maxRequests` accepted calls of a key in any window. */
  lemma {:induction false} FaithfulWindowBound(c: Config, log: seq<Event>, key: Key, i: nat, j: nat, a: real)
    requires Faithful(c, log) && i <= j <= |log|
    requires forall p :: i <= p < j ==> log[p] != CapEvicted(key)
    ensures AcceptedWithin(log, key, i, j, a, a + c.window) <= if c.maxRequests > 0 then c.maxRequests else 0
  {
    if i < j {
      var e := log[j - 1];
      if e.Called? && e.key == key && e.accepted && a <= e.at <= a + c.window {
        WithinHistory(log, key, i, j - 1, a, a + c.window, Since(c, e.at));
      } else {
        FaithfulWindowBound(c, log, key, i, j - 1, a);
      }
    }
  }

  /**
    Over any run, every closed time interval as long as the window holds at most `maxRequests`
    accepted calls of a key, within any stretch of the run in which that key is not cap-evicted.
   */
  lemma WindowBound(c: Config, calls: seq<Call>, key: Key, i: nat, j: nat, a: real)
    requires Chronological(calls)
    requires i <= j <= |RunAll(c, calls).log|
    requires forall p :: i <= p < j ==> RunAll(c, calls).log[p] != CapEvicted(key)
    ensures AcceptedWithin(RunAll(c, calls).log, key, i, j, a, a + c.window)
            <= if c.maxRequests > 0 then c.maxRequests else 0
  {
    RunSound(c, calls, if calls == [] then a else calls[|calls| - 1].now);
    FaithfulWindowBound(c, RunAll(c, calls).log, key, i, j, a);
  }

  // ------------------------------------------------------------------
  // Memory
  // ------------------------------------------------------------------

  ghost predicate EndsWith(s: Store, key: Key) {
    s.Valid() && s.order != [] && s.order[|s.order| - 1] == key
  }

  lemma DropFrontEnds(s: Store, key: Key)
    requires EndsWith(s, key) && s.order[0] != key
    ensures EndsWith(DropFront(s), key) && Lookup(DropFront(s), key) == Lookup(s, key)
  {
    DropFrontValid(s);
  }

  lemma {:induction false} SweepSparesLast(s: Store, key: Key, from: real)
    requires EndsWith(s, key)
    requires var list := Lookup(s, key); list != [] && list[|list| - 1] >= from
    ensures EndsWith(Sweep(s, from), key)
    decreases |s.order|
  {
    if FrontExpired(s, from) {
      DropFrontEnds(s, key);
      SweepSparesLast(DropFront(s), key, from);
    }
  }

  lemma {:induction false} EvictSparesLast(s: Store, key: Key, maxKeys: nat)
    requires EndsWith(s, key) && maxKeys >= 1
    ensures EndsWith(Evict(s, maxKeys), key)
    decreases |s.order|
  {
    if |s.order| > maxKeys {
      DropFrontEnds(s, key);
      EvictSparesLast(DropFront(s), key, maxKeys);
    }
  }

  lemma {:induction false} FinishSparesLast(c: Config, touched: Store, key: Key, from: real)
    requires EndsWith(touched, key) && c.maxKeys >= 1
    requires var list := Lookup(touched, key); list != [] && list[|list| - 1] >= from
    ensures EndsWith(Evict(Sweep(touched, from), c.maxKeys), key)
  {
    SweepSparesLast(touched, key, from);
    EvictSparesLast(Sweep(touched, from), key, c.maxKeys);
  }

  /** The calling key's own list is live, and stands at the recent end. */
  lemma TouchLive(c: Config, s: Store, log: seq<Event>, clock: real, call: Call)
    requires Loose(c, s, log, clock) && clock <= call.now && c.maxRequests >= 1 && c.window >= 0.0
    ensures Recorded(c, s, call) != []
    ensures Recorded(c, s, call)[|Recorded(c, s, call)| - 1] >= Since(c, call.now)
  {
    assert HistorySound(log, clock, call.key) && Remembered(c, s, log, clock, call.key);
    RememberedSorted(Lookup(s, call.key), Accepted(log, call.key), Since(c, clock));
    PruneKeepsLive(Lookup(s, call.key), Since(c, call.now));
  }

  lemma TouchEnds(c: Config, s: Store, call: Call)
    requires s.Valid() && Recorded(c, s, call) != []
    ensures EndsWith(Touch(c, s, call), call.key)
  {
    TouchValid(c, s, call);
  }

  lemma {:induction false} AllowSparesCaller(c: Config, s: Store, log: seq<Event>, clock: real, call: Call)
    requires Loose(c, s, log, clock) && clock <= call.now
    requires c.maxRequests >= 1 && c.window >= 0.0 && c.maxKeys >= 1
    ensures EndsWith(After(c, s, call), call.key)
  {
    TouchLive(c, s, log, clock, call);
    TouchEnds(c, s, call);
    TouchLookup(c, s, call, call.key);
    var touched := Touch(c, s, call);
    FinishSparesLast(c, touched, call.key, Since(c, call.now));
  }

  /** What a store between calls holds: few keys, short sorted lists, recently called clients. */
  ghost predicate Bounded(c: Config, s: Store, log: seq<Event>, clock: real) {
    && s.Valid()
    && |s.order| <= c.maxKeys
    && (forall k :: k in s.hits ==>
          && 1 <= |s.hits[k]| <= c.maxRequests
          && NonDecreasing(s.hits[k])
          && LastCall(log, k).Some?
          && Since(c, clock) <= LastCall(log, k).value <= clock)
  }

  lemma ConsistentBounded(c: Config, s: Store, log: seq<Event>, clock: real)
    requires Consistent(c, s, log, clock)
    ensures Bounded(c, s, log, clock)
  {
    forall k | k in s.hits
      ensures NonDecreasing(s.hits[k])
      ensures LastCall(log, k).Some? && Since(c, clock) <= LastCall(log, k).value <= clock
    {
      assert HistorySound(log, clock, k) && Remembered(c, s, log, clock, k);
      RememberedSorted(s.hits[k], Accepted(log, k), Since(c, clock));
      assert k in s.order;
    }
  }

  lemma {:induction false} CallerTracked(c: Config, run: Run, clock: real, call: Call)
    requires Consistent(c, run.store, run.log, clock) && clock <= call.now
    requires c.maxRequests >= 1 && c.maxKeys >= 1 && c.window >= 0.0
    ensures EndsWith(Next(c, run, call).store, call.key)
  {
    AllowSparesCaller(c, run.store, run.log, clock, call);
  }

  lemma EndsWithTracked(s: Store, key: Key)
    requires EndsWith(s, key)
    ensures key in s.hits
  {
    assert key in s.order;
  }

  /** After every call of every run the memory is bounded by, and tied to, the active clients. */
  lemma {:induction false} MemoryBound(c: Config, calls: seq<Call>)
    requires Chronological(calls) && calls != []
    ensures Bounded(c, RunAll(c, calls).store, RunAll(c, calls).log, calls[|calls| - 1].now)
    ensures c.maxRequests >= 1 && c.maxKeys >= 1 && c.window >= 0.0 ==>
              calls[|calls| - 1].key in RunAll(c, calls).store.hits
  {
    var n := |calls| - 1;
    RunSound(c, calls, calls[n].now);
    ConsistentBounded(c, RunAll(c, calls).store, RunAll(c, calls).log, calls[n].now);
    if c.maxRequests >= 1 && c.maxKeys >= 1 && c.window >= 0.0 {
      var earlier := if n == 0 then calls[n].now else calls[n - 1].now;
      RunSound(c, calls[..n], earlier);
      CallerTracked(c, RunAll(c, calls[..n]), earlier, calls[n]);
      EndsWithTracked(RunAll(c, calls).store, calls[n].key);
    }
  }

  // Which keys the cap evicts

  /** How many keys are over the cap. */
  function Excess(size: nat, maxKeys: nat): nat {
    if size > maxKeys then size - maxKeys else 0
  }

  lemma {:induction false} EvictSplits(s: Store, maxKeys: nat)
    ensures Evict(s, maxKeys).order == s.order[Excess(|s.order|, maxKeys)..]
    ensures forall k :: CapEvicted(k) in Evictions(s, maxKeys) <==> k in s.order[..Excess(|s.order|, maxKeys)]
    decreases |s.order|
  {
    if |s.order| > maxKeys {
      var rest, n := DropFront(s), Excess(|s.order|, maxKeys);
      EvictSplits(rest, maxKeys);
      assert s.order[..n] == [s.order[0]] + rest.order[..n - 1];
    }
  }

  /**
    The cap took as few keys from `order` as it could, and those called longest ago: as many stay as
    it allows, the log names just the others, and none of these was called later than any that stays.
   */
  ghost predicate LongestIdleGone(order: seq<Key>, maxKeys: nat, kept: seq<Key>, events: seq<Event>, log: seq<Event>) {
    && |kept| == (if |order| < maxKeys then |order| else maxKeys)
    && (forall k :: k in order <==> k in kept || CapEvicted(k) in events)
    && (forall gone, k :: CapEvicted(gone) in events && k in kept ==> LastCalledNoLater(log, gone, k))
  }

  ghost predicate LastCalledNoLater(log: seq<Event>, a: Key, b: Key) {
    a != b && LastCall(log, a).Some? && LastCall(log, b).Some? && LastCall(log, a).value <= LastCall(log, b).value
  }

  lemma {:induction false} SplitByLastCall(order: seq<Key>, log: seq<Event>, n: nat, gone: Key, k: Key)
    requires Distinct(order) && ByLastCall(order, log) && n <= |order| && gone in order[..n] && k in order[n..]
    ensures LastCalledNoLater(log, gone, k)
  {
    var i :| 0 <= i < n && order[i] == gone;
    var j :| n <= j < |order| && order[j] == k;
    assert LastCall(log, order[i]).value <= LastCall(log, order[j]).value;
  }

  lemma {:induction false} SplitTakesLongestIdle(
    order: seq<Key>, maxKeys: nat, n: nat, events: seq<Event>, log: seq<Event>)
    requires Distinct(order) && ByLastCall(order, log) && n == Excess(|order|, maxKeys)
    requires forall k :: CapEvicted(k) in events <==> k in order[..n]
    ensures LongestIdleGone(order, maxKeys, order[n..], events, log)
  {
    SplitMembers(order, n);
    forall gone, k | CapEvicted(gone) in events && k in order[n..]
      ensures LastCalledNoLater(log, gone, k)
    {
      SplitByLastCall(order, log, n, gone, k);
    }
  }

  lemma SplitMembers(order: seq<Key>, n: nat)
    requires n <= |order|
    ensures forall k :: k in order <==> k in order[..n] || k in order[n..]
  {
    assert order == order[..n] + order[n..];
  }

  lemma {:induction false} EvictTakesLongestIdle(s: Store, maxKeys: nat, log: seq<Event>)
    requires s.Valid() && ByLastCall(s.order, log)
    ensures LongestIdleGone(s.order, maxKeys, Evict(s, maxKeys).order, Evictions(s, maxKeys), log)
  {
    EvictSplits(s, maxKeys);
    SplitTakesLongestIdle(s.order, maxKeys, Excess(|s.order|, maxKeys), Evictions(s, maxKeys), log);
  }

  lemma {:induction false} SweptOrdered(c: Config, s: Store, log: seq<Event>, clock: real, call: Call)
    requires Loose(c, s, log, clock) && clock <= call.now
    ensures Swept(c, s, call).Valid()
    ensures ByLastCall(Swept(c, s, call).order, log + [Called(call.key, call.now, Accepts(c, s, call))])
  {
    var e := Called(call.key, call.now, Accepts(c, s, call));
    TouchKeeps(c, s, log, clock, call, e);
    SweepKeeps(c, Touch(c, s, call), log + [e], call.now);
  }

  /** So it is for every call of every run, of the keys the sweep left and the log up to that call. */
  lemma {:induction false} EvictsLongestIdle(c: Config, calls: seq<Call>, call: Call)
    requires Chronological(calls + [call])
    ensures var run := RunAll(c, calls);
      LongestIdleGone(
        Swept(c, run.store, call).order, c.maxKeys, Next(c, run, call).store.order,
        Happened(c, run.store, call)[1..], run.log + [Called(call.key, call.now, Accepts(c, run.store, call))])
  {
    var run := RunAll(c, calls);
    var clock := LastSound(c, calls, call);
    SweptOrdered(c, run.store, run.log, clock, call);
    HappenedLog(c, run.store, run.log, call);
    EvictTakesLongestIdle(
      Swept(c, run.store, call), c.maxKeys, run.log + [Called(call.key, call.now, Accepts(c, run.store, call))]);
  }

  // ------------------------------------------------------------------
  // Which tracked keys are stale
  // ------------------------------------------------------------------

  ghost predicate InOrderOfTime(log: seq<Event>) {
    forall i, j :: 0 <= i <= j < |log| && log[i].Called? && log[j].Called? ==> log[i].at <= log[j].at
  }

  ghost predicate NoLaterThan(log: seq<Event>, clock: real) {
    forall i :: 0 <= i < |log| && log[i].Called? ==> log[i].at <= clock
  }

  lemma CallExtends(log: seq<Event>, call: Event, more: seq<Event>, clock: real)
    requires call.Called? && InOrderOfTime(log) && NoLaterThan(log, clock) && clock <= call.at
    requires forall e :: e in more ==> e.CapEvicted?
    ensures InOrderOfTime(log + [call] + more) && NoLaterThan(log + [call] + more, call.at)
  {
    var all := log + [call] + more;
    forall i | |log| < i < |all| ensures all[i].CapEvicted? {
      assert all[i] in more;
    }
  }

  lemma {:induction false} RunInOrder(c: Config, calls: seq<Call>, clock: real)
    requires Chronological(calls) && (calls != [] ==> clock == calls[|calls| - 1].now)
    ensures InOrderOfTime(RunAll(c, calls).log) && NoLaterThan(RunAll(c, calls).log, clock)
  {
    if calls != [] {
      var n := |calls| - 1;
      var before, call := RunAll(c, calls[..n]), calls[n];
      var earlier := if n == 0 then call.now else calls[n - 1].now;
      RunInOrder(c, calls[..n], earlier);
      HappenedInOrder(c, before, call, earlier);
    }
  }

  lemma HappenedInOrder(c: Config, run: Run, call: Call, clock: real)
    requires InOrderOfTime(run.log) && NoLaterThan(run.log, clock) && clock <= call.now
    ensures InOrderOfTime(Next(c, run, call).log) && NoLaterThan(Next(c, run, call).log, call.now)
  {
    var e, more := Called(call.key, call.now, Accepts(c, run.store, call)),
        Evictions(Swept(c, run.store, call), c.maxKeys);
    EvictionsOnly(Swept(c, run.store, call), c.maxKeys);
    CallExtends(run.log, e, more, clock);
    assert run.log + ([e] + more) == run.log + [e] + more;
  }

  /** The last accepted time since an eviction is the latest accepted time of all. */
  lemma {:induction false} LastAcceptedIsLatest(log: seq<Event>, key: Key) returns (i: nat)
    requires InOrderOfTime(log) && Accepted(log, key) != []
    ensures i < |log| && log[i] == Called(key, Accepted(log, key)[|Accepted(log, key)| - 1], true)
    ensures forall j :: i < j < |log| ==> !(log[j].Called? && log[j].key == key && log[j].accepted)
  {
    i := |log| - 1;
    var last := log[i];
    if !(last.Called? && last.key == key && last.accepted) {
      var init := log[..|log| - 1];
      i := LastAcceptedIsLatest(init, key);
      assert forall j :: 0 <= j < |init| ==> log[j] == init[j];
    }
  }

  /** Every call of `key` from `from` on was refused. */
  ghost predicate RefusedSince(log: seq<Event>, key: Key, from: real) {
    forall i :: 0 <= i < |log| && log[i].Called? && log[i].key == key && log[i].at >= from ==> !log[i].accepted
  }

  ghost predicate IsStale(s: Store, key: Key, from: real)
    requires Lookup(s, key) != []
  {
    Lookup(s, key)[|Lookup(s, key)| - 1] < from
  }

  lemma StaleByLog(log: seq<Event>, key: Key, from: real)
    requires InOrderOfTime(log) && Accepted(log, key) != []
    ensures Accepted(log, key)[|Accepted(log, key)| - 1] < from <==> RefusedSince(log, key, from)
  {
    var i := LastAcceptedIsLatest(log, key);
    if Accepted(log, key)[|Accepted(log, key)| - 1] < from {
      forall j | 0 <= j < |log| && log[j].Called? && log[j].key == key && log[j].at >= from ensures !log[j].accepted {
        if j <= i {
          assert log[j].at <= log[i].at;
        }
      }
    }
  }

  lemma {:induction false} StaleInStore(c: Config, s: Store, log: seq<Event>, clock: real, key: Key)
    requires Consistent(c, s, log, clock) && InOrderOfTime(log) && key in s.hits
    ensures Lookup(s, key) != []
    ensures IsStale(s, key, Since(c, clock)) <==> RefusedSince(log, key, Since(c, clock))
  {
    assert Remembered(c, s, log, clock, key);
    RememberedLast(Lookup(s, key), Accepted(log, key), Since(c, clock));
    StaleByLog(log, key, Since(c, clock));
  }

  /** A tracked key is fully expired exactly when every call of it within the window was refused. */
  lemma {:induction false} StaleIff(c: Config, calls: seq<Call>, key: Key)
    requires Chronological(calls) && calls != [] && key in RunAll(c, calls).store.hits
    ensures var run, from := RunAll(c, calls), Since(c, calls[|calls| - 1].now);
      && Lookup(run.store, key) != []
      && (IsStale(run.store, key, from) <==> RefusedSince(run.log, key, from))
  {
    var run, clock := RunAll(c, calls), calls[|calls| - 1].now;
    RunSound(c, calls, clock);
    RunInOrder(c, calls, clock);
    StaleInStore(c, run.store, run.log, clock, key);
  }

  lemma RunSnoc(c: Config, calls: seq<Call>, call: Call)
    ensures RunAll(c, calls + [call]) == Next(c, RunAll(c, calls), call)
  {
    assert (calls + [call])[..|calls + [call]| - 1] == calls;
  }

  /** A step that finds a live key at the front and room under the cap only records the call. */
  lemma OnlyRecords(c: Config, run: Run, call: Call, after: Store)
    requires after == Touch(c, run.store, call)
    requires after.order != [] && !FrontExpired(after, Since(c, call.now)) && |after.order| <= c.maxKeys
    ensures Next(c, run, call).store == after
  {
  }

  lemma {:induction false} WithoutAbsent(order: seq<Key>, key: Key)
    requires key !in order
    ensures Without(order, key) == order
  {
    if order != [] {
      WithoutAbsent(order[1..], key);
    }
  }

  /** The first call of a key goes to the end of the order. */
  lemma TouchFirst(c: Config, s: Store, call: Call)
    requires call.key !in s.order && call.key !in s.hits && c.maxRequests >= 1
    ensures Touch(c, s, call) == Store(s.order + [call.key], s.hits[call.key := [call.now]])
  {
    WithoutAbsent(s.order, call.key);
    assert s.hits - {call.key} == s.hits;
    assert Recorded(c, s, call) == [call.now];
  }

  /** A refused call with nothing expired changes the order and nothing else. */
  lemma TouchRefused(c: Config, s: Store, call: Call)
    requires call.key in s.hits && s.hits[call.key] != []
    requires s.hits[call.key][0] >= Since(c, call.now) && |s.hits[call.key]| >= c.maxRequests
    ensures Touch(c, s, call) == Store(Without(s.order, call.key) + [call.key], s.hits)
  {
    assert (s.hits - {call.key})[call.key := s.hits[call.key]] == s.hits;
  }

  lemma WithoutFirstOfTwo(a: Key, b: Key)
    requires a != b
    ensures Without([a, b], a) == [b]
  {
    WithoutAbsent([b], a);
    assert [a, b][1..] == [b];
  }

  lemma {:induction false} TwoAccepted(c: Config, a: Key, b: Key) returns (calls: seq<Call>)
    requires a != b && c == Config(1, 60.0, 3)
    ensures calls == [Call(a, 0.0), Call(b, 40.0)]
    ensures RunAll(c, calls).store == Store([a, b], map[a := [0.0], b := [40.0]])
  {
    TouchFirst(c, Store([], map[]), Call(a, 0.0));
    calls := ThenCall(c, [], Call(a, 0.0), Store([a], map[a := [0.0]]));
    TouchFirst(c, Store([a], map[a := [0.0]]), Call(b, 40.0));
    calls := ThenCall(c, calls, Call(b, 40.0), Store([a, b], map[a := [0.0], b := [40.0]]));
  }

  lemma {:induction false} ThirdRefused(c: Config, a: Key, b: Key) returns (calls: seq<Call>)
    requires a != b && c == Config(1, 60.0, 3)
    ensures calls == [Call(a, 0.0), Call(b, 40.0), Call(a, 50.0)]
    ensures RunAll(c, calls).store == Store([b, a], map[a := [0.0], b := [40.0]])
  {
    calls := TwoAccepted(c, a, b);
    var hits := map[a := [0.0], b := [40.0]];
    TouchRefused(c, Store([a, b], hits), Call(a, 50.0));
    WithoutFirstOfTwo(a, b);
    calls := ThenCall(c, calls, Call(a, 50.0), Store([b, a], hits));
  }

  lemma {:induction false} StaleRun(c: Config, a: Key, b: Key, e: Key) returns (calls: seq<Call>)
    requires a != b && a != e && b != e && c == Config(1, 60.0, 3)
    ensures calls == [Call(a, 0.0), Call(b, 40.0), Call(a, 50.0), Call(e, 61.0)]
    ensures RunAll(c, calls).store == Store([b, a, e], map[a := [0.0], b := [40.0], e := [61.0]])
  {
    calls := ThirdRefused(c, a, b);
    var hits := map[a := [0.0], b := [40.0]];
    TouchFirst(c, Store([b, a], hits), Call(e, 61.0));
    calls := ThenCall(c, calls, Call(e, 61.0), Store([b, a, e], hits[e := [61.0]]));
  }

  /**
    One request a minute: A is accepted at 0 and refused at 50, B accepted at 40, and at 61 A is stale
    behind live B.
   */
  lemma {:induction false} StaleBehindLive(a: Key, b: Key, e: Key) returns (c: Config, calls: seq<Call>)
    requires a != b && a != e && b != e
    ensures Chronological(calls) && calls != []
    ensures var s, from := RunAll(c, calls).store, Since(c, calls[|calls| - 1].now);
      && s.order == [b, a, e]
      && Lookup(s, b) == [40.0] && !IsStale(s, b, from)
      && Lookup(s, a) == [0.0] && IsStale(s, a, from)
  {
    c := Config(1, 60.0, 3);
    calls := StaleRun(c, a, b, e);
  }

  lemma ThenCall(c: Config, calls: seq<Call>, call: Call, after: Store) returns (more: seq<Call>)
    requires after == Touch(c, RunAll(c, calls).store, call)
    requires after.order != [] && !FrontExpired(after, Since(c, call.now)) && |after.order| <= c.maxKeys
    ensures more == calls + [call] && RunAll(c, more).store == after
  {
    RunSnoc(c, calls, call);
    OnlyRecords(c, RunAll(c, calls), call, after);
    more := calls + [call];
  }

  // ------------------------------------------------------------------
  // Keys affect each other only through the cap
  // ------------------------------------------------------------------

  ghost function KeySet(order: seq<Key>): set<Key> { set k | k in order }

  lemma {:induction false} DistinctCardinality(order: seq<Key>)
    requires Distinct(order)
    ensures |KeySet(order)| == |order|
  {
    if order != [] {
      var rest := order[1..];
      DistinctCardinality(rest);
      assert order == [order[0]] + rest;
      assert KeySet(order) == KeySet(rest) + {order[0]};
    }
  }

  lemma SubsetSize(a: set<Key>, b: set<Key>)
    requires a <= b
    ensures |a| <= |b|
  {
    assert b == a + (b - a);
  }

  lemma DistinctWithin(order: seq<Key>, keys: set<Key>)
    requires Distinct(order) && forall k :: k in order ==> k in keys
    ensures |order| <= |keys|
  {
    DistinctCardinality(order);
    SubsetSize(KeySet(order), keys);
  }

  /** The keys called, accepted or not, at `from` or later. */
  ghost function ActiveKeys(calls: seq<Call>, from: real): set<Key> {
    set i | 0 <= i < |calls| && calls[i].now >= from :: calls[i].key
  }

  lemma {:induction false} LastCallInLog(log: seq<Event>, k: Key)
    requires LastCall(log, k).Some?
    ensures exists p :: 0 <= p < |log| && log[p].Called? && log[p].key == k && log[p].at == LastCall(log, k).value
  {
    var e := log[|log| - 1];
    if e.Called? && e.key == k {
      assert log[|log| - 1] == e;
    } else {
      LastCallInLog(log[..|log| - 1], k);
      var p :| 0 <= p < |log| - 1 && log[..|log| - 1][p].Called? && log[..|log| - 1][p].key == k
               && log[..|log| - 1][p].at == LastCall(log, k).value;
      assert log[p].Called?;
    }
  }

  lemma {:induction false} LogComesFromCalls(c: Config, calls: seq<Call>)
    ensures forall e :: e in RunAll(c, calls).log && e.Called? ==> Call(e.key, e.at) in calls
  {
    if calls != [] {
      var n := |calls| - 1;
      LogComesFromCalls(c, calls[..n]);
      EvictionsOnly(Swept(c, RunAll(c, calls[..n]).store, calls[n]), c.maxKeys);
      forall e | e in RunAll(c, calls).log && e.Called? ensures Call(e.key, e.at) in calls {
        if e in RunAll(c, calls[..n]).log {
          assert Call(e.key, e.at) in calls[..n];
        } else {
          assert Call(e.key, e.at) == calls[n];
        }
      }
    }
  }

  lemma {:induction false} SweptConsistent(c: Config, s: Store, log: seq<Event>, clock: real, call: Call, e: Event)
    requires Loose(c, s, log, clock) && clock <= call.now
    requires e == Called(call.key, call.now, Accepts(c, s, call))
    ensures Swept(c, s, call).Valid() && RecentlyCalled(c, Swept(c, s, call), log + [e], call.now)
  {
    TouchKeeps(c, s, log, clock, call, e);
    var touched := Touch(c, s, call);
    SweptTouched(c, touched, log + [e], call.now);
    assert Swept(c, s, call) == Sweep(touched, Since(c, call.now));
  }

  lemma {:induction false} SweptTouched(c: Config, touched: Store, log: seq<Event>, now: real)
    requires Loose(c, touched, log, now)
    ensures Sweep(touched, Since(c, now)).Valid()
    ensures RecentlyCalled(c, Sweep(touched, Since(c, now)), log, now)
  {
    SweepKeeps(c, touched, log, now);
  }

  lemma ActiveInLog(c: Config, calls: seq<Call>, log: seq<Event>, k: Key, from: real)
    requires LastCall(log, k).Some? && LastCall(log, k).value >= from
    requires forall e :: e in log && e.Called? ==> Call(e.key, e.at) in calls
    ensures k in ActiveKeys(calls, from)
  {
    LastCallInLog(log, k);
    var p :| 0 <= p < |log| && log[p].Called? && log[p].key == k && log[p].at == LastCall(log, k).value;
    assert log[p] in log;
    var i :| 0 <= i < |calls| && calls[i] == Call(k, log[p].at);
  }

  lemma {:induction false} SweptActive(c: Config, s: Store, log: seq<Event>, clock: real, calls: seq<Call>, call: Call)
    requires Loose(c, s, log, clock) && clock <= call.now
    requires forall e :: e in log && e.Called? ==> Call(e.key, e.at) in calls
    ensures |Swept(c, s, call).order| <= |ActiveKeys(calls + [call], Since(c, call.now))|
  {
    var e := Called(call.key, call.now, Accepts(c, s, call));
    SweptConsistent(c, s, log, clock, call, e);
    forall k | k in Swept(c, s, call).order ensures k in ActiveKeys(calls + [call], Since(c, call.now)) {
      ActiveInLog(c, calls + [call], log + [e], k, Since(c, call.now));
    }
    DistinctWithin(Swept(c, s, call).order, ActiveKeys(calls + [call], Since(c, call.now)));
  }

  /** A swept store tracks only keys called within the window, so it is no larger than their number. */
  lemma {:induction false} SweptSize(c: Config, calls: seq<Call>, call: Call)
    requires Chronological(calls + [call])
    ensures |Swept(c, RunAll(c, calls).store, call).order| <= |ActiveKeys(calls + [call], Since(c, call.now))|
  {
    var clock := LastSound(c, calls, call);
    LogComesFromCalls(c, calls);
    SweptActive(c, RunAll(c, calls).store, RunAll(c, calls).log, clock, calls, call);
  }

  /** At every call of the run, at most `maxKeys` distinct clients had called within the window. */
  ghost predicate NeverOverCap(c: Config, calls: seq<Call>) {
    calls == [] ||
    (&& NeverOverCap(c, calls[..|calls| - 1])
     && |ActiveKeys(calls, Since(c, calls[|calls| - 1].now))| <= c.maxKeys)
  }

  lemma {:induction false} NoEvictionStep(c: Config, calls: seq<Call>, call: Call)
    requires Chronological(calls + [call]) && |ActiveKeys(calls + [call], Since(c, call.now))| <= c.maxKeys
    ensures forall e :: e in Happened(c, RunAll(c, calls).store, call) ==> e.Called?
  {
    SweptSize(c, calls, call);
  }

  /** As long as no window sees more than `maxKeys` distinct clients, nothing is ever evicted. */
  lemma {:induction false} FewActiveNeverEvicted(c: Config, calls: seq<Call>)
    requires Chronological(calls) && NeverOverCap(c, calls)
    ensures forall e :: e in RunAll(c, calls).log ==> e.Called?
  {
    if calls != [] {
      var n := |calls| - 1;
      FewActiveNeverEvicted(c, calls[..n]);
      assert calls == calls[..n] + [calls[n]];
      NoEvictionStep(c, calls[..n], calls[n]);
      assert RunAll(c, calls).log == RunAll(c, calls[..n]).log + Happened(c, RunAll(c, calls[..n]).store, calls[n]);
    }
  }

  /** The calls of one key alone, in order. */
  ghost function Only(calls: seq<Call>, key: Key): seq<Call> {
    if calls == [] then []
    else
      var last := calls[|calls| - 1];
      Only(calls[..|calls| - 1], key) + if last.key == key then [last] else []
  }

  /** The answers one key got, in order. */
  ghost function Answers(log: seq<Event>, key: Key): seq<bool> {
    if log == [] then []
    else
      var e := log[|log| - 1];
      Answers(log[..|log| - 1], key) + if e.Called? && e.key == key then [e.accepted] else []
  }

  lemma {:induction false} EvictionsSilent(log: seq<Event>, more: seq<Event>, key: Key)
    requires forall e :: e in more ==> e.CapEvicted? && e.key != key
    ensures Answers(log + more, key) == Answers(log, key)
    ensures Accepted(log + more, key) == Accepted(log, key)
  {
    if more == [] {
      assert log + more == log;
    } else {
      var m := |more| - 1;
      assert more[m] in more;
      assert (log + more)[..|log + more| - 1] == log + more[..m];
      EvictionsSilent(log, more[..m], key);
    }
  }

  lemma OnlyChronological(calls: seq<Call>, key: Key)
    requires Chronological(calls)
    ensures Chronological(Only(calls, key))
    ensures forall x :: x in Only(calls, key) ==> x.key == key && x in calls
  {
    if calls != [] {
      var n := |calls| - 1;
      OnlyChronological(calls[..n], key);
      forall x | x in Only(calls[..n], key) ensures x.now <= calls[n].now && x in calls {
        assert x in calls[..n];
      }
    }
  }

  lemma {:induction false} AloneNeverOverCap(c: Config, calls: seq<Call>, key: Key)
    requires c.maxKeys >= 1 && (forall i :: 0 <= i < |calls| ==> calls[i].key == key)
    ensures NeverOverCap(c, calls)
  {
    if calls != [] {
      AloneNeverOverCap(c, calls[..|calls| - 1], key);
      SubsetSize(ActiveKeys(calls, Since(c, calls[|calls| - 1].now)), {key});
    }
  }

  lemma AloneNeverEvicted(c: Config, calls: seq<Call>, key: Key)
    requires Chronological(calls) && c.maxKeys >= 1 && (forall x :: x in calls ==> x.key == key)
    ensures forall e :: e in RunAll(c, calls).log ==> e.Called?
  {
    assert forall i :: 0 <= i < |calls| ==> calls[i] in calls;
    AloneNeverOverCap(c, calls, key);
    FewActiveNeverEvicted(c, calls);
  }

  /** The answers and the accepted times of one key: all that its client can observe. */
  datatype View = View(answers: seq<bool>, accepted: seq<real>)

  ghost function ViewOf(log: seq<Event>, key: Key): View {
    View(Answers(log, key), Accepted(log, key))
  }

  ghost function Seen(view: View, call: Call, key: Key, accepted: bool): View {
    if call.key != key then view
    else View(view.answers + [accepted], view.accepted + if accepted then [call.now] else [])
  }

  lemma CalledSeen(log: seq<Event>, call: Call, accepted: bool, key: Key)
    ensures ViewOf(log + [Called(call.key, call.now, accepted)], key) == Seen(ViewOf(log, key), call, key, accepted)
  {
    var e := Called(call.key, call.now, accepted);
    CalledLog(log, e, key);
    assert (log + [e])[..|log + [e]| - 1] == log;
  }

  lemma InConcat(log: seq<Event>, more: seq<Event>, e: Event)
    requires e in more
    ensures e in log + more
  {
  }

  /** One call, with the evictions it causes, as one key sees it. */
  lemma StepSeen(c: Config, run: Run, call: Call, key: Key)
    requires CapEvicted(key) !in Next(c, run, call).log
    ensures ViewOf(Next(c, run, call).log, key) == Seen(ViewOf(run.log, key), call, key, Accepts(c, run.store, call))
  {
    var evictions := Evictions(Swept(c, run.store, call), c.maxKeys);
    EvictionsOnly(Swept(c, run.store, call), c.maxKeys);
    HappenedLog(c, run.store, run.log, call);
    forall x | x in evictions ensures x.CapEvicted? && x.key != key {
      InConcat(run.log + [Called(call.key, call.now, Accepts(c, run.store, call))], evictions, x);
    }
    CalledSeen(run.log, call, Accepts(c, run.store, call), key);
    EvictionsSilent(run.log + [Called(call.key, call.now, Accepts(c, run.store, call))], evictions, key);
  }

  lemma OnlyExtends(calls: seq<Call>, call: Call)
    requires Chronological(calls + [call])
    ensures Only(calls + [call], call.key) == Only(calls, call.key) + [call]
    ensures Chronological(Only(calls, call.key) + [call])
    ensures forall x :: x in Only(calls, call.key) ==> x.key == call.key
  {
    assert (calls + [call])[..|calls + [call]| - 1] == calls;
    OnlyChronological(calls + [call], call.key);
    forall x | x in Only(calls, call.key) ensures x.key == call.key {
      assert x in Only(calls, call.key) + [call];
    }
  }

  /** With the same history, the same call gets the same answer. */
  lemma {:induction false} SameHistorySameAnswer(c: Config, one: seq<Call>, other: seq<Call>, call: Call)
    requires Chronological(one + [call]) && Chronological(other + [call])
    requires Accepted(RunAll(c, one).log, call.key) == Accepted(RunAll(c, other).log, call.key)
    ensures Accepts(c, RunAll(c, one).store, call) == Accepts(c, RunAll(c, other).store, call)
  {
    AllowRefinesLog(c, one, call);
    AllowRefinesLog(c, other, call);
  }

  lemma {:induction false} AloneSeen(c: Config, calls: seq<Call>, call: Call)
    requires Chronological(calls + [call]) && c.maxKeys >= 1
    requires forall x :: x in calls ==> x.key == call.key
    ensures ViewOf(RunAll(c, calls + [call]).log, call.key)
            == Seen(ViewOf(RunAll(c, calls).log, call.key), call, call.key, Accepts(c, RunAll(c, calls).store, call))
  {
    AloneNeverEvicted(c, calls + [call], call.key);
    RunSnoc(c, calls, call);
    assert CapEvicted(call.key) !in RunAll(c, calls + [call]).log;
    StepSeen(c, RunAll(c, calls), call, call.key);
  }

  lemma {:induction false} IsolationStep(c: Config, calls: seq<Call>, call: Call, key: Key)
    requires Chronological(calls + [call]) && c.maxKeys >= 1
    requires CapEvicted(key) !in RunAll(c, calls + [call]).log
    requires ViewOf(RunAll(c, calls).log, key) == ViewOf(RunAll(c, Only(calls, key)).log, key)
    ensures ViewOf(RunAll(c, calls + [call]).log, key) == ViewOf(RunAll(c, Only(calls + [call], key)).log, key)
  {
    RunSnoc(c, calls, call);
    StepSeen(c, RunAll(c, calls), call, key);
    if call.key == key {
      OnlyExtends(calls, call);
      SameHistorySameAnswer(c, calls, Only(calls, key), call);
      AloneSeen(c, Only(calls, key), call);
    } else {
      OnlySkips(calls, call, key);
    }
  }

  lemma OnlySkips(calls: seq<Call>, call: Call, key: Key)
    requires call.key != key
    ensures Only(calls + [call], key) == Only(calls, key)
  {
    assert (calls + [call])[..|calls + [call]| - 1] == calls;
  }

  /**
    Isolation: a key that is never cap-evicted gets, among any other traffic, exactly the answers it
    would have got had it been the only client.
   */
  lemma {:induction false} Isolation(c: Config, calls: seq<Call>, key: Key)
    requires Chronological(calls) && c.maxKeys >= 1
    requires CapEvicted(key) !in RunAll(c, calls).log
    ensures ViewOf(RunAll(c, calls).log, key) == ViewOf(RunAll(c, Only(calls, key)).log, key)
  {
    if calls != [] {
      var before, call := calls[..|calls| - 1], calls[|calls| - 1];
      assert calls == before + [call];
      assert CapEvicted(key) !in RunAll(c, before).log;
      Isolation(c, before, key);
      IsolationStep(c, before, call, key);
    }
  }

  // ------------------------------------------------------------------
  // The limiter object
  // ------------------------------------------------------------------

  /**
    What a caller of `Allow` is promised when time does not run backwards: the store stays tied to
    the log and bounded, the answer is the one the complete log dictates, and the caller stays tracked
    if the configuration leaves room for it.
   */
  ghost predicate Promised(c: Config, before: Run, clock: real, call: Call, after: Run, allowed: bool) {
    Sound(c, before, clock) && clock <= call.now ==>
      && Sound(c, after, call.now)
      && Bounded(c, after.store, after.log, call.now)
      && (allowed <==> CountFrom(Accepted(before.log, call.key), Since(c, call.now)) < c.maxRequests)
      && (c.maxRequests >= 1 && c.maxKeys >= 1 && c.window >= 0.0 ==> EndsWith(after.store, call.key))
  }

  lemma {:induction false} AllowPromised(c: Config, run: Run, clock: real, call: Call)
    ensures Promised(c, run, clock, call, Next(c, run, call), Accepts(c, run.store, call))
  {
    if Sound(c, run, clock) && clock <= call.now {
      NextSound(c, run, clock, call);
      ConsistentBounded(c, Next(c, run, call).store, Next(c, run, call).log, call.now);
      AllowKeeps(c, run.store, run.log, clock, call);
      if c.maxRequests >= 1 && c.maxKeys >= 1 && c.window >= 0.0 {
        CallerTracked(c, run, clock, call);
      }
    }
  }

  // The three phases of a call, each on the store and the log together.

  ghost function Recording(c: Config, run: Run, call: Call): Run {
    Run(Touch(c, run.store, call), run.log + [Called(call.key, call.now, Accepts(c, run.store, call))])
  }

  ghost function Sweeping(run: Run, from: real): Run {
    Run(Sweep(run.store, from), run.log)
  }

  ghost function Evicting(run: Run, maxKeys: nat): Run {
    Run(Evict(run.store, maxKeys), run.log + Evictions(run.store, maxKeys))
  }

  lemma NextPhases(c: Config, run: Run, call: Call)
    ensures Next(c, run, call) == Evicting(Sweeping(Recording(c, run, call), Since(c, call.now)), c.maxKeys)
  {
    HappenedLog(c, run.store, run.log, call);
  }

  lemma NextIs(c: Config, run: Run, call: Call, windowStart: real, recorded: Run, swept: Run, after: Run)
    requires recorded == Recording(c, run, call) && windowStart == Since(c, call.now)
    requires swept == Sweeping(recorded, windowStart)
    requires after == Evicting(swept, c.maxKeys)
    ensures after == Next(c, run, call)
  {
    NextPhases(c, run, call);
  }

  lemma EvictStep(log: seq<Event>, s: Store, maxKeys: nat)
    requires |s.order| > maxKeys
    ensures Evict(s, maxKeys) == Evict(DropFront(s), maxKeys)
    ensures log + Evictions(s, maxKeys) == log + [CapEvicted(s.order[0])] + Evictions(DropFront(s), maxKeys)
  {
  }

  class Limiter {
    const config: Config
    var order: seq<Key>
    var hits: map<Key, seq<real>>
    ghost var log: seq<Event>
    ghost var clock: real  // the time of the last call

    ghost function Contents(): Store
      reads this
    {
      Store(order, hits)
    }

    ghost function State(): Run
      reads this
    {
      Run(Contents(), log)
    }

    constructor (config: Config, now: real)
      ensures this.config == config && Contents() == Store([], map[]) && log == [] && clock == now
      ensures Sound(config, State(), clock)
    {
      this.config := config;
      order, hits, log, clock := [], map[], [], now;
      new;
      EmptyConsistent(config, now);
    }

    /** One call: the new store and log are `Next` of the old ones, and the answer is as `Promised`. */
    method Allow(key: Key, now: real) returns (allowed: bool)
      requires Contents().Valid()
      modifies this
      ensures Contents().Valid()
      ensures State() == Next(config, old(State()), Call(key, now)) && clock == now
      ensures allowed == Accepts(config, old(Contents()), Call(key, now))
      ensures Promised(config, old(State()), old(clock), Call(key, now), State(), allowed)
    {
      ghost var before, call := State(), Call(key, now);
      allowed := Record(key, now);
      ghost var recorded := State();
      var windowStart := Since(config, now);
      SweepExpired(windowStart);
      ghost var swept := State();
      EvictOverCap();
      ghost var after := State();
      NextIs(config, before, call, windowStart, recorded, swept, after);
      AllowPromised(config, before, old(clock), call);
    }

    /** Pop the key, prune its expired times, record the call if there is room, and re-insert. */
    method Record(key: Key, now: real) returns (allowed: bool)
      requires Contents().Valid()
      modifies this
      ensures Contents().Valid()
      ensures State() == Recording(config, old(State()), Call(key, now)) && clock == now
      ensures allowed == Accepts(config, old(Contents()), Call(key, now))
    {
      var windowStart := Since(config, now);
      ghost var before := Contents();
      TouchValid(config, before, Call(key, now));
      var list := if key in hits then hits[key] else [];
      order, hits := Without(order, key), hits - {key};
      while list != [] && list[0] < windowStart
        invariant Prune(list, windowStart) == Prune(Lookup(before, key), windowStart)
      {
        list := list[1..];
      }
      allowed := |list| < config.maxRequests;
      if allowed {
        list := list + [now];
      }
      if list != [] {
        order, hits := order + [key], hits[key := list];
      }
      log, clock := log + [Called(key, now, allowed)], now;
    }

    /** Leaves the keys from the first live one on, behind which an expired one may hide (`StaleIff`). */
    method SweepExpired(windowStart: real)
      requires Contents().Valid()
      modifies `order, `hits
      ensures Contents().Valid() && State() == Sweeping(old(State()), windowStart)
    {
      while order != []
        invariant Contents().Valid()
        invariant Sweep(Contents(), windowStart) == Sweep(old(Contents()), windowStart)
        decreases |order|
      {
        var oldest := order[0];
        assert oldest in order;
        if hits[oldest] != [] && hits[oldest][|hits[oldest]| - 1] >= windowStart {
          break;
        }
        DropFrontValid(Contents());
        order, hits := order[1..], hits - {oldest};
      }
    }

    /** Leaves at most `maxKeys` keys, those called last, and logs the others (`LongestIdleGone`). */
    method EvictOverCap()
      requires Contents().Valid()
      modifies `order, `hits, `log
      ensures Contents().Valid() && State() == Evicting(old(State()), config.maxKeys)
    {
      while |order| > config.maxKeys
        invariant Contents().Valid()
        invariant Evict(Contents(), config.maxKeys) == Evict(old(Contents()), config.maxKeys)
        invariant log + Evictions(Contents(), config.maxKeys) == old(log) + Evictions(old(Contents()), config.maxKeys)
        decreases |order|
      {
        DropFrontValid(Contents());
        EvictStep(log, Contents(), config.maxKeys);
        log := log + [CapEvicted(order[0])];
        order, hits := order[1..], hits - {order[0]};
      }
    }
  }
}
