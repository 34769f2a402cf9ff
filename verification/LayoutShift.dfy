/**
  Cumulative layout shift: the largest session window of a stream of shifts, recorded in whatever
  chunks the browser delivers them.
 */
module LayoutShift {

  const SESSION_GAP := 1000.0
  const SESSION_MAX := 5000.0

  datatype Shift = Shift(startTime: real, value: real, hadRecentInput: bool)

  // ------------------------------------------------------------------
  // The greedy partition into session windows
  // ------------------------------------------------------------------

  function Elapsed(since: real, now: real): real { now - since }

  /** The shifts that count. */
  function Counted(shifts: seq<Shift>): seq<Shift> {
    if shifts == [] then []
    else
      var rest := Counted(shifts[..|shifts| - 1]);
      if shifts[|shifts| - 1].hadRecentInput then rest else rest + [shifts[|shifts| - 1]]
  }

  /** `shift` still belongs to the session `window`. */
  predicate Joins(window: seq<Shift>, shift: Shift)
    requires window != []
  {
    && Elapsed(window[|window| - 1].startTime, shift.startTime) <= SESSION_GAP
    && Elapsed(window[0].startTime, shift.startTime) <= SESSION_MAX
  }

  /** Windows taken greedily: a shift that cannot join the last window opens the next one. */
  function Windows(shifts: seq<Shift>): (ws: seq<seq<Shift>>)
    ensures forall i :: 0 <= i < |ws| ==> ws[i] != []
  {
    if shifts == [] then []
    else
      var ws, shift := Windows(shifts[..|shifts| - 1]), shifts[|shifts| - 1];
      if ws != [] && Joins(ws[|ws| - 1], shift) then ws[..|ws| - 1] + [ws[|ws| - 1] + [shift]] else ws + [[shift]]
  }

  function Total(shifts: seq<Shift>): real {
    if shifts == [] then 0.0 else Total(shifts[..|shifts| - 1]) + shifts[|shifts| - 1].value
  }

  function Larger(a: real, b: real): real { if a > b then a else b }

  /** The largest total of a window, or zero without any. */
  function LargestTotal(ws: seq<seq<Shift>>): real {
    if ws == [] then 0.0 else Larger(LargestTotal(ws[..|ws| - 1]), Total(ws[|ws| - 1]))
  }

  // ------------------------------------------------------------------
  // The accumulator
  // ------------------------------------------------------------------

  datatype Tally = Tally(cls: real, windowValue: real, windowStart: real, windowLast: real)

  const START := Tally(0.0, 0.0, 0.0, 0.0)

  function Record(t: Tally, shift: Shift): Tally {
    if shift.hadRecentInput then t
    else
      var ended := t.windowValue != 0.0
        && (|| Elapsed(t.windowLast, shift.startTime) > SESSION_GAP
            || Elapsed(t.windowStart, shift.startTime) > SESSION_MAX);
      var before := if ended then 0.0 else t.windowValue;
      var windowStart := if before == 0.0 then shift.startTime else t.windowStart;
      var windowValue := before + shift.value;
      Tally(if windowValue > t.cls then windowValue else t.cls, windowValue, windowStart, shift.startTime)
  }

  function Recorded(t: Tally, shifts: seq<Shift>): Tally {
    if shifts == [] then t else Record(Recorded(t, shifts[..|shifts| - 1]), shifts[|shifts| - 1])
  }

  /** The values the page's callbacks share. */
  class Accumulator {
    var cls: real
    var windowValue: real
    var windowStart: real
    var windowLast: real

    function Now(): Tally
      reads this
    {
      Tally(cls, windowValue, windowStart, windowLast)
    }

    constructor ()
      ensures Now() == START
    {
      cls, windowValue, windowStart, windowLast := 0.0, 0.0, 0.0, 0.0;
    }

    method RecordCls(entries: seq<Shift>)
      modifies this
      ensures Now() == Recorded(old(Now()), entries)
    {
      for i := 0 to |entries|
        invariant Now() == Recorded(old(Now()), entries[..i])
      {
        var shift := entries[i];
        assert entries[..i + 1][..i] == entries[..i];
        if shift.hadRecentInput {
          continue;
        }
        if windowValue != 0.0 &&
          (Elapsed(windowLast, shift.startTime) > SESSION_GAP || Elapsed(windowStart, shift.startTime) > SESSION_MAX)
        {
          windowValue := 0.0;
        }
        if windowValue == 0.0 {
          windowStart := shift.startTime;
        }
        windowLast := shift.startTime;
        windowValue := windowValue + shift.value;
        if windowValue > cls {
          cls := windowValue;
        }
      }
      assert entries[..|entries|] == entries;
    }
  }

  function Concat(chunks: seq<seq<Shift>>): seq<Shift> {
    if chunks == [] then [] else Concat(chunks[..|chunks| - 1]) + chunks[|chunks| - 1]
  }

  lemma {:induction false} RecordedConcat(t: Tally, a: seq<Shift>, b: seq<Shift>)
    ensures Recorded(t, a + b) == Recorded(Recorded(t, a), b)
  {
    if b == [] {
      assert a + b == a;
    } else {
      RecordedConcat(t, a, b[..|b| - 1]);
      assert (a + b)[..|a + b| - 1] == a + b[..|b| - 1];
    }
  }

  /** The callbacks' deliveries and then what `takeRecords` drains at the end. */
  method Measure(chunks: seq<seq<Shift>>, drained: seq<Shift>) returns (cls: real)
    ensures cls == Recorded(START, Concat(chunks) + drained).cls
  {
    var accumulator := new Accumulator();
    for i := 0 to |chunks|
      invariant accumulator.Now() == Recorded(START, Concat(chunks[..i]))
      modifies accumulator
    {
      assert chunks[..i + 1][..i] == chunks[..i];
      RecordedConcat(START, Concat(chunks[..i]), chunks[i]);
      accumulator.RecordCls(chunks[i]);
    }
    assert chunks[..|chunks|] == chunks;
    RecordedConcat(START, Concat(chunks), drained);
    accumulator.RecordCls(drained);
    cls := accumulator.cls;
  }

  // ------------------------------------------------------------------
  // What is measured
  // ------------------------------------------------------------------

  ghost predicate Positive(shifts: seq<Shift>) {
    forall i :: 0 <= i < |shifts| ==> shifts[i].value > 0.0
  }

  /** The accumulator knows the largest window so far, and the last window's total and ends. */
  ghost predicate Tracks(t: Tally, ws: seq<seq<Shift>>)
    requires forall i :: 0 <= i < |ws| ==> ws[i] != []
  {
    && t.cls == LargestTotal(ws)
    && (ws == [] ==> t.windowValue == 0.0)
    && (ws != [] ==>
          var w := ws[|ws| - 1];
          && t.windowValue == Total(w) > 0.0
          && t.windowStart == w[0].startTime && t.windowLast == w[|w| - 1].startTime)
  }

  lemma TotalSnoc(window: seq<Shift>, shift: Shift)
    ensures Total(window + [shift]) == Total(window) + shift.value
  {
    assert (window + [shift])[..|window + [shift]| - 1] == window;
  }

  lemma LargestSnoc(ws: seq<seq<Shift>>, w: seq<Shift>)
    ensures LargestTotal(ws + [w]) == Larger(LargestTotal(ws), Total(w))
  {
    assert (ws + [w])[..|ws + [w]| - 1] == ws;
  }

  lemma OpensWindow(t: Tally, ws: seq<seq<Shift>>, shift: Shift)
    requires (forall i :: 0 <= i < |ws| ==> ws[i] != []) && Tracks(t, ws)
    requires shift.value > 0.0 && !shift.hadRecentInput
    requires ws != [] ==> !Joins(ws[|ws| - 1], shift)
    ensures Tracks(Record(t, shift), ws + [[shift]])
  {
    TotalSnoc([], shift);
    assert [] + [shift] == [shift];
    LargestSnoc(ws, [shift]);
  }

  lemma JoinsWindow(t: Tally, ws: seq<seq<Shift>>, w: seq<Shift>, shift: Shift)
    requires (forall i :: 0 <= i < |ws| ==> ws[i] != []) && w != [] && Tracks(t, ws + [w])
    requires shift.value >= 0.0 && !shift.hadRecentInput && Joins(w, shift)
    ensures Tracks(Record(t, shift), ws + [w + [shift]])
  {
    TotalSnoc(w, shift);
    LargestSnoc(ws, w);
    LargestSnoc(ws, w + [shift]);
  }

  lemma JoinsLast(t: Tally, ws: seq<seq<Shift>>, shift: Shift)
    requires (forall i :: 0 <= i < |ws| ==> ws[i] != []) && ws != [] && Tracks(t, ws)
    requires shift.value >= 0.0 && !shift.hadRecentInput && Joins(ws[|ws| - 1], shift)
    ensures Tracks(Record(t, shift), ws[..|ws| - 1] + [ws[|ws| - 1] + [shift]])
  {
    assert ws == ws[..|ws| - 1] + [ws[|ws| - 1]];
    JoinsWindow(t, ws[..|ws| - 1], ws[|ws| - 1], shift);
  }

  lemma WindowsSnoc(before: seq<Shift>, shift: Shift)
    ensures var ws := Windows(before);
      Windows(before + [shift])
        == if ws != [] && Joins(ws[|ws| - 1], shift) then ws[..|ws| - 1] + [ws[|ws| - 1] + [shift]] else ws + [[shift]]
  {
    assert (before + [shift])[..|before + [shift]| - 1] == before;
  }

  lemma GreedyStep(t: Tally, before: seq<Shift>, shift: Shift)
    requires Tracks(t, Windows(before)) && shift.value > 0.0 && !shift.hadRecentInput
    ensures Tracks(Record(t, shift), Windows(before + [shift]))
  {
    var ws := Windows(before);
    WindowsSnoc(before, shift);
    if ws != [] && Joins(ws[|ws| - 1], shift) {
      JoinsLast(t, ws, shift);
    } else {
      OpensWindow(t, ws, shift);
    }
  }

  /** For positive shifts the accumulator keeps the greedy windows. */
  lemma {:induction false} TracksGreedy(shifts: seq<Shift>)
    requires Positive(Counted(shifts))
    ensures Tracks(Recorded(START, shifts), Windows(Counted(shifts)))
  {
    if shifts != [] {
      var init, shift := shifts[..|shifts| - 1], shifts[|shifts| - 1];
      var before := Counted(init);
      if shift.hadRecentInput {
        TracksGreedy(init);
      } else {
        assert Counted(shifts) == before + [shift];
        PositiveLast(before, shift);
        TracksGreedy(init);
        GreedyStep(Recorded(START, init), before, shift);
      }
    }
  }

  lemma PositiveLast(before: seq<Shift>, shift: Shift)
    requires Positive(before + [shift])
    ensures Positive(before) && shift.value > 0.0
  {
    var all := before + [shift];
    assert all[|before|] == shift;
    assert forall i :: 0 <= i < |before| ==> all[i] == before[i];
  }

  /** For positive shifts the result is the largest total of a greedy session window. */
  lemma ClsIsLargestWindow(shifts: seq<Shift>)
    requires Positive(Counted(shifts))
    ensures Recorded(START, shifts).cls == LargestTotal(Windows(Counted(shifts)))
  {
    TracksGreedy(shifts);
  }

  // ------------------------------------------------------------------
  // The windows are sessions, and there is only one such partition
  // ------------------------------------------------------------------

  function Flatten(ws: seq<seq<Shift>>): seq<Shift> {
    if ws == [] then [] else Flatten(ws[..|ws| - 1]) + ws[|ws| - 1]
  }

  /** No gap within the window is over the limit, nor is its span up to any of its shifts. */
  ghost predicate IsSession(w: seq<Shift>) {
    && w != []
    && forall i :: 0 < i < |w| ==>
         && Elapsed(w[i - 1].startTime, w[i].startTime) <= SESSION_GAP
         && Elapsed(w[0].startTime, w[i].startTime) <= SESSION_MAX
  }

  /** Sessions that make up `shifts` in order, none of which could have taken the next one's first shift. */
  ghost predicate IsGreedy(ws: seq<seq<Shift>>, shifts: seq<Shift>) {
    && Flatten(ws) == shifts
    && (forall k :: 0 <= k < |ws| ==> IsSession(ws[k]))
    && (forall k :: 0 < k < |ws| ==> !Joins(ws[k - 1], ws[k][0]))
  }

  lemma FlattenSnoc(ws: seq<seq<Shift>>, w: seq<Shift>)
    ensures Flatten(ws + [w]) == Flatten(ws) + w
  {
    assert (ws + [w])[..|ws + [w]| - 1] == ws;
  }

  lemma {:induction false} GreedyExtends(ws: seq<seq<Shift>>, w: seq<Shift>, shift: Shift, shifts: seq<Shift>)
    requires IsGreedy(ws + [w], shifts) && IsSession(w) && Joins(w, shift)
    ensures IsGreedy(ws + [w + [shift]], shifts + [shift])
  {
    FlattenSnoc(ws, w);
    FlattenSnoc(ws, w + [shift]);
    var before, after := ws + [w], ws + [w + [shift]];
    forall k | 0 <= k < |after| ensures IsSession(after[k]) {
      if k < |ws| {
        assert after[k] == before[k];
      }
    }
    forall k | 0 < k < |after| ensures !Joins(after[k - 1], after[k][0]) {
      assert after[k - 1] == before[k - 1] && after[k][0] == before[k][0];
    }
  }

  lemma GreedyOpens(ws: seq<seq<Shift>>, shift: Shift, shifts: seq<Shift>)
    requires IsGreedy(ws, shifts) && (ws != [] ==> !Joins(ws[|ws| - 1], shift))
    ensures IsGreedy(ws + [[shift]], shifts + [shift])
  {
    FlattenSnoc(ws, [shift]);
    var after := ws + [[shift]];
    forall k | 0 <= k < |after| ensures IsSession(after[k]) {
      if k < |ws| {
        assert after[k] == ws[k];
      }
    }
    forall k | 0 < k < |after| ensures !Joins(after[k - 1], after[k][0]) {
      assert after[k - 1] == ws[k - 1];
      if k < |ws| {
        assert after[k] == ws[k];
      }
    }
  }

  lemma {:induction false} WindowsAreGreedy(shifts: seq<Shift>)
    ensures IsGreedy(Windows(shifts), shifts)
  {
    if shifts != [] {
      var before, shift := shifts[..|shifts| - 1], shifts[|shifts| - 1];
      var ws := Windows(before);
      WindowsAreGreedy(before);
      assert shifts == before + [shift];
      if ws != [] && Joins(ws[|ws| - 1], shift) {
        assert ws == ws[..|ws| - 1] + [ws[|ws| - 1]];
        GreedyExtends(ws[..|ws| - 1], ws[|ws| - 1], shift, before);
      } else {
        GreedyOpens(ws, shift, before);
      }
    }
  }

  lemma GreedyInit(ws: seq<seq<Shift>>, shifts: seq<Shift>)
    requires IsGreedy(ws, shifts) && ws != []
    ensures var init, w := ws[..|ws| - 1], ws[|ws| - 1];
      IsGreedy(init, Flatten(init)) && IsSession(w) && shifts == Flatten(init) + w
  {
  }

  lemma SessionSplits(w: seq<Shift>)
    requires IsSession(w) && |w| > 1
    ensures IsSession(w[..|w| - 1]) && Joins(w[..|w| - 1], w[|w| - 1])
  {
  }

  lemma ShorterByWindow(front: seq<seq<Shift>>, shift: Shift, shifts: seq<Shift>)
    requires IsGreedy(front + [[shift]], shifts) && forall k :: 0 <= k < |front| ==> front[k] != []
    ensures shifts == Flatten(front) + [shift]
    ensures front != [] ==> !Joins(front[|front| - 1], shift)
  {
    var ws := front + [[shift]];
    FlattenSnoc(front, [shift]);
    if front != [] {
      assert !Joins(ws[|front| - 1], ws[|front|][0]);
    }
  }

  lemma {:induction false} ShorterByShift(front: seq<seq<Shift>>, rest: seq<Shift>, shift: Shift, shifts: seq<Shift>)
    requires IsGreedy(front + [rest + [shift]], shifts) && rest != [] && IsSession(rest)
    ensures IsGreedy(front + [rest], Flatten(front) + rest) && shifts == Flatten(front) + rest + [shift]
  {
    FlattenSnoc(front, rest);
    FlattenSnoc(front, rest + [shift]);
    var init, ws := front + [rest], front + [rest + [shift]];
    forall k | 0 <= k < |init| ensures IsSession(init[k]) {
      if k < |front| {
        assert init[k] == ws[k];
      }
    }
    forall k | 0 < k < |init| ensures !Joins(init[k - 1], init[k][0]) {
      assert init[k - 1] == ws[k - 1] && init[k][0] == ws[k][0];
    }
  }

  /** What is left of a greedy partition without the last shift. */
  lemma GreedyShorter(ws: seq<seq<Shift>>, shifts: seq<Shift>)
    returns (init: seq<seq<Shift>>, before: seq<Shift>, shift: Shift)
    requires IsGreedy(ws, shifts) && shifts != []
    ensures IsGreedy(init, before) && shifts == before + [shift]
    ensures if init != [] && Joins(init[|init| - 1], shift)
            then ws == init[..|init| - 1] + [init[|init| - 1] + [shift]]
            else ws == init + [[shift]]
  {
    GreedyInit(ws, shifts);
    var front, w := ws[..|ws| - 1], ws[|ws| - 1];
    shift := w[|w| - 1];
    assert ws == front + [w];
    if |w| == 1 {
      init, before := front, Flatten(front);
      assert w == [shift];
      ShorterByWindow(front, shift, shifts);
    } else {
      var rest := w[..|w| - 1];
      assert w == rest + [shift];
      SessionSplits(w);
      init, before := front + [rest], Flatten(front) + rest;
      ShorterByShift(front, rest, shift, shifts);
    }
  }

  /** Any greedy partition into sessions is the one the windows are. */
  lemma {:induction false} GreedyUnique(ws: seq<seq<Shift>>, shifts: seq<Shift>)
    requires IsGreedy(ws, shifts)
    ensures ws == Windows(shifts)
    decreases |shifts|
  {
    if shifts == [] {
      if ws != [] {
        GreedyInit(ws, shifts);
      }
    } else {
      var init, before, shift := GreedyShorter(ws, shifts);
      GreedyUnique(init, before);
      assert shifts[..|shifts| - 1] == before;
    }
  }

  // ------------------------------------------------------------------
  // Bounds
  // ------------------------------------------------------------------

  ghost predicate NonNegative(shifts: seq<Shift>) {
    forall i :: 0 <= i < |shifts| ==> shifts[i].value >= 0.0
  }

  lemma {:induction false} TotalBounds(w: seq<Shift>)
    requires NonNegative(w)
    ensures Total(w) >= 0.0 && forall i :: 0 <= i < |w| ==> w[i].value <= Total(w)
  {
    if w != [] {
      TotalBounds(w[..|w| - 1]);
    }
  }

  lemma {:induction false} TotalConcat(a: seq<Shift>, b: seq<Shift>)
    ensures Total(a + b) == Total(a) + Total(b)
  {
    if b == [] {
      assert a + b == a;
    } else {
      TotalConcat(a, b[..|b| - 1]);
      assert (a + b)[..|a + b| - 1] == a + b[..|b| - 1];
    }
  }

  lemma {:induction false} LargestBounds(ws: seq<seq<Shift>>)
    requires forall i :: 0 <= i < |ws| ==> NonNegative(ws[i])
    ensures NonNegative(Flatten(ws))
    ensures 0.0 <= LargestTotal(ws) <= Total(Flatten(ws))
    ensures forall i :: 0 <= i < |Flatten(ws)| ==> Flatten(ws)[i].value <= LargestTotal(ws)
  {
    if ws != [] {
      var init, w := ws[..|ws| - 1], ws[|ws| - 1];
      LargestBounds(init);
      TotalBounds(w);
      TotalConcat(Flatten(init), w);
      TotalBounds(Flatten(init));
    }
  }

  lemma {:induction false} PartsNonNegative(ws: seq<seq<Shift>>)
    requires NonNegative(Flatten(ws))
    ensures forall i :: 0 <= i < |ws| ==> NonNegative(ws[i])
  {
    if ws != [] {
      var init, w := ws[..|ws| - 1], ws[|ws| - 1];
      assert forall i :: 0 <= i < |Flatten(init)| ==> Flatten(ws)[i] == Flatten(init)[i];
      assert forall i :: 0 <= i < |w| ==> Flatten(ws)[|Flatten(init)| + i] == w[i];
      PartsNonNegative(init);
    }
  }

  /** The result lies between the largest single shift and the lifetime sum. */
  lemma ClsBounds(shifts: seq<Shift>)
    requires Positive(Counted(shifts))
    ensures var cls := Recorded(START, shifts).cls;
      && cls <= Total(Counted(shifts))
      && forall i :: 0 <= i < |Counted(shifts)| ==> Counted(shifts)[i].value <= cls
  {
    var counted := Counted(shifts);
    ClsIsLargestWindow(shifts);
    WindowsAreGreedy(counted);
    PartsNonNegative(Windows(counted));
    LargestBounds(Windows(counted));
  }

  // ------------------------------------------------------------------
  // Shifts of value zero
  // ------------------------------------------------------------------

  /** As `Windows`, but a shift of value zero never opens a window. */
  function Sessions(shifts: seq<Shift>): (ws: seq<seq<Shift>>)
    ensures forall i :: 0 <= i < |ws| ==> ws[i] != []
  {
    if shifts == [] then []
    else
      var ws, shift := Sessions(shifts[..|shifts| - 1]), shifts[|shifts| - 1];
      if ws != [] && Joins(ws[|ws| - 1], shift) then ws[..|ws| - 1] + [ws[|ws| - 1] + [shift]]
      else if shift.value == 0.0 then ws
      else ws + [[shift]]
  }

  ghost predicate Chronological(shifts: seq<Shift>) {
    forall i, j :: 0 <= i < j < |shifts| ==> shifts[i].startTime <= shifts[j].startTime
  }

  /** No window is open: there is none, or the last shift came too late for the last one. */
  ghost predicate Idle(t: Tally, ws: seq<seq<Shift>>)
    requires forall i :: 0 <= i < |ws| ==> ws[i] != []
  {
    && t.cls == LargestTotal(ws) && t.windowValue == 0.0
    && (ws != [] ==>
          || Elapsed(ws[|ws| - 1][|ws[|ws| - 1]| - 1].startTime, t.windowLast) > SESSION_GAP
          || Elapsed(ws[|ws| - 1][0].startTime, t.windowLast) > SESSION_MAX)
  }

  lemma StaysIdle(t: Tally, ws: seq<seq<Shift>>, shift: Shift)
    requires forall i :: 0 <= i < |ws| ==> ws[i] != []
    requires Tracks(t, ws) || Idle(t, ws)
    requires shift.value == 0.0 && !shift.hadRecentInput
    requires ws != [] ==> !Joins(ws[|ws| - 1], shift)
    ensures Idle(Record(t, shift), ws)
  {
    LargestNonNegative(ws);
  }

  lemma {:induction false} LargestNonNegative(ws: seq<seq<Shift>>)
    ensures LargestTotal(ws) >= 0.0
  {
    if ws != [] {
      LargestNonNegative(ws[..|ws| - 1]);
    }
  }

  lemma OpensFromIdle(t: Tally, ws: seq<seq<Shift>>, shift: Shift)
    requires (forall i :: 0 <= i < |ws| ==> ws[i] != []) && Idle(t, ws)
    requires shift.value > 0.0 && !shift.hadRecentInput
    ensures Tracks(Record(t, shift), ws + [[shift]])
  {
    TotalSnoc([], shift);
    assert [] + [shift] == [shift];
    LargestSnoc(ws, [shift]);
  }

  lemma TooLateStaysTooLate(t: Tally, ws: seq<seq<Shift>>, shift: Shift)
    requires (forall i :: 0 <= i < |ws| ==> ws[i] != []) && Idle(t, ws) && t.windowLast <= shift.startTime
    ensures ws != [] ==> !Joins(ws[|ws| - 1], shift)
  {
  }

  lemma SessionsSnoc(before: seq<Shift>, shift: Shift)
    ensures var ws := Sessions(before);
      Sessions(before + [shift])
        == if ws != [] && Joins(ws[|ws| - 1], shift) then ws[..|ws| - 1] + [ws[|ws| - 1] + [shift]]
           else if shift.value == 0.0 then ws else ws + [[shift]]
  {
    assert (before + [shift])[..|before + [shift]| - 1] == before;
  }

  /** One counted shift, at or after the one before it. */
  lemma SessionStep(t: Tally, before: seq<Shift>, shift: Shift)
    requires Tracks(t, Sessions(before)) || Idle(t, Sessions(before))
    requires shift.value >= 0.0 && !shift.hadRecentInput
    requires before != [] ==> t.windowLast <= shift.startTime
    ensures Tracks(Record(t, shift), Sessions(before + [shift])) || Idle(Record(t, shift), Sessions(before + [shift]))
  {
    var ws := Sessions(before);
    SessionsSnoc(before, shift);
    if Idle(t, ws) && before != [] {
      TooLateStaysTooLate(t, ws, shift);
    }
    if ws != [] && Joins(ws[|ws| - 1], shift) {
      JoinsLast(t, ws, shift);
    } else if shift.value == 0.0 {
      StaysIdle(t, ws, shift);
    } else if Idle(t, ws) {
      OpensFromIdle(t, ws, shift);
    } else {
      OpensWindow(t, ws, shift);
    }
  }

  /** The accumulator keeps the sessions, and the time of the last counted shift. */
  ghost predicate Follows(t: Tally, counted: seq<Shift>) {
    && (Tracks(t, Sessions(counted)) || Idle(t, Sessions(counted)))
    && (counted != [] ==> t.windowLast == counted[|counted| - 1].startTime)
  }

  lemma FollowsNext(t: Tally, before: seq<Shift>, shift: Shift)
    requires Follows(t, before) && !shift.hadRecentInput
    requires NonNegative(before + [shift]) && Chronological(before + [shift])
    ensures Follows(Record(t, shift), before + [shift])
  {
    CutLast(before, shift);
    SessionStep(t, before, shift);
  }

  lemma {:induction false} TracksSessions(shifts: seq<Shift>)
    requires NonNegative(Counted(shifts)) && Chronological(Counted(shifts))
    ensures Follows(Recorded(START, shifts), Counted(shifts))
  {
    if shifts != [] {
      var init, shift := shifts[..|shifts| - 1], shifts[|shifts| - 1];
      if shift.hadRecentInput {
        TracksSessions(init);
      } else {
        assert Counted(shifts) == Counted(init) + [shift];
        CutLast(Counted(init), shift);
        TracksSessions(init);
        FollowsNext(Recorded(START, init), Counted(init), shift);
      }
    }
  }

  lemma CutLast(before: seq<Shift>, shift: Shift)
    requires NonNegative(before + [shift]) && Chronological(before + [shift])
    ensures NonNegative(before) && Chronological(before) && shift.value >= 0.0
    ensures before != [] ==> before[|before| - 1].startTime <= shift.startTime
  {
    var all := before + [shift];
    assert all[|before|] == shift;
    assert forall i :: 0 <= i < |before| ==> all[i] == before[i];
  }

  /** With shifts of value zero too: the largest session, where such a shift prolongs a window but never opens one. */
  lemma ClsIsLargestSession(shifts: seq<Shift>)
    requires NonNegative(Counted(shifts)) && Chronological(Counted(shifts))
    ensures Recorded(START, shifts).cls == LargestTotal(Sessions(Counted(shifts)))
  {
    TracksSessions(shifts);
  }

  ghost predicate NoneBeginsAtZero(ws: seq<seq<Shift>>)
    requires forall i :: 0 <= i < |ws| ==> ws[i] != []
  {
    forall i :: 0 <= i < |ws| ==> ws[i][0].value != 0.0
  }

  lemma {:induction false} SessionsBeginAboveZero(shifts: seq<Shift>)
    ensures NoneBeginsAtZero(Sessions(shifts))
  {
    if shifts != [] {
      SessionsBeginAboveZero(shifts[..|shifts| - 1]);
    }
  }

  lemma BeginsAfterJoin(ws: seq<seq<Shift>>, w: seq<Shift>, shift: Shift)
    requires (forall i :: 0 <= i < |ws| ==> ws[i] != []) && w != []
    requires NoneBeginsAtZero(ws + [w + [shift]])
    ensures NoneBeginsAtZero(ws + [w])
  {
    var after := ws + [w + [shift]];
    assert after[|ws|] == w + [shift];
    assert forall i :: 0 <= i < |ws| ==> after[i] == ws[i];
  }

  lemma BeginsAfterOpen(ws: seq<seq<Shift>>, shift: Shift)
    requires forall i :: 0 <= i < |ws| ==> ws[i] != []
    requires NoneBeginsAtZero(ws + [[shift]])
    ensures NoneBeginsAtZero(ws) && shift.value != 0.0
  {
    var after := ws + [[shift]];
    assert after[|ws|] == [shift];
    assert forall i :: 0 <= i < |ws| ==> after[i] == ws[i];
  }

  lemma {:induction false} SameWithoutZeros(shifts: seq<Shift>)
    requires NoneBeginsAtZero(Windows(shifts))
    ensures Windows(shifts) == Sessions(shifts)
  {
    if shifts != [] {
      var before, shift := shifts[..|shifts| - 1], shifts[|shifts| - 1];
      assert shifts == before + [shift];
      var ws := Windows(before);
      WindowsSnoc(before, shift);
      SessionsSnoc(before, shift);
      if ws != [] && Joins(ws[|ws| - 1], shift) {
        assert ws == ws[..|ws| - 1] + [ws[|ws| - 1]];
        BeginsAfterJoin(ws[..|ws| - 1], ws[|ws| - 1], shift);
      } else {
        BeginsAfterOpen(ws, shift);
      }
      SameWithoutZeros(before);
    }
  }

  /** The greedy reading is the accumulator's exactly when none of its windows begins with a shift of value zero. */
  lemma {:induction false} GreedyIsSessionsIff(shifts: seq<Shift>)
    ensures Windows(shifts) == Sessions(shifts) <==> NoneBeginsAtZero(Windows(shifts))
  {
    SessionsBeginAboveZero(shifts);
    if NoneBeginsAtZero(Windows(shifts)) {
      SameWithoutZeros(shifts);
    }
  }

  /** A shift of value zero at 0 ms, which no browser reports, then one of value 1 every second. */
  function Ticks(n: nat): seq<Shift> {
    if n == 0 then []
    else Ticks(n - 1) + [Shift((n - 1) as real * 1000.0, if n == 1 then 0.0 else 1.0, false)]
  }

  lemma {:induction false} TicksRun(n: nat)
    requires 1 <= n <= 7
    ensures |Ticks(n)| == n && Ticks(n)[0].startTime == 0.0 && Ticks(n)[n - 1].startTime == (n - 1) as real * 1000.0
    ensures Counted(Ticks(n)) == Ticks(n) && Total(Ticks(n)) == (n - 1) as real
    ensures Recorded(START, Ticks(n)) ==
      Tally((n - 1) as real, (n - 1) as real, if n == 1 then 0.0 else 1000.0, (n - 1) as real * 1000.0)
    ensures n <= 6 ==> Windows(Ticks(n)) == [Ticks(n)]
  {
    if n > 1 {
      TicksRun(n - 1);
      assert Ticks(n)[..n - 1] == Ticks(n - 1);
    } else {
      assert Ticks(1) == [Shift(0.0, 0.0, false)] && Ticks(1)[..0] == [];
    }
  }

  lemma {:induction false} TicksChronological(n: nat)
    ensures |Ticks(n)| == n && NonNegative(Ticks(n)) && Chronological(Ticks(n))
    ensures forall i :: 0 <= i < n ==> Ticks(n)[i].startTime == i as real * 1000.0
  {
    if n > 0 {
      TicksChronological(n - 1);
    }
  }

  /** Read greedily, the zero shift opens the first window; the accumulator forgets it, and reports more. */
  lemma {:induction false} ZeroShiftOpensNoWindow(shifts: seq<Shift>)
    requires shifts == Ticks(7)
    ensures NonNegative(shifts) && Chronological(shifts)
    ensures Recorded(START, shifts).cls == 6.0 && LargestTotal(Windows(Counted(shifts))) == 5.0
  {
    TicksChronological(7);
    TicksRun(6);
    TicksRun(7);
    var first, last := Ticks(6), shifts[6];
    assert shifts[..6] == first;
    assert Windows(shifts) == [first] + [[last]];
    LargestSnoc([], first);
    LargestSnoc([first], [last]);
    TotalSnoc([], last);
    assert [] + [last] == [last] && [] + [first] == [first];
  }
}
