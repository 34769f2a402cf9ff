/**
  Adversarial bursts: contenders released together, what each of them comes to in every interleaving,
  and the controls over the outcome (C10: one winner; C15: the bursts really overlapped).
 */
module Races {
  import opened Wrappers
  import opened Overlap
  import opened Responses

  // ------------------------------------------------------------------
  // Contenders
  // ------------------------------------------------------------------

  datatype Crash = BarrierFailed | CallRaised

  /** Where a contender is; the clock is read after the barrier and when its call is over. */
  datatype Contender =
    | AtBarrier
    | Calling(started: real)
    | Raised(started: real)
    | Returned(started: real, response: Response)
    | ToSample(interval: Interval, response: Response)
    | ToReport(interval: Interval, response: Response)
    | LostAtBarrier
    | LostInCall(interval: Interval)
    | Answered(interval: Interval, response: Response)

  /** The contender's call is over and timed. */
  predicate IsTimed(c: Contender) { c.LostInCall? || c.ToSample? || c.ToReport? || c.Answered? }

  predicate IsOver(c: Contender) { c.LostAtBarrier? || c.LostInCall? || c.Answered? }

  /** The lists the contenders share. */
  datatype Board = Board(responses: seq<Response>, intervals: seq<Interval>, crashed: seq<Crash>, latency: seq<real>)

  datatype Move =
    | BreakBarrier | Release | Raise | Return(response: Response) | Continue

  predicate CanMove(c: Contender, move: Move) {
    match move
    case BreakBarrier => c.AtBarrier?
    case Release => c.AtBarrier?
    case Raise => c.Calling?
    case Return(_) => c.Calling?
    case Continue => c.Raised? || c.Returned? || c.ToSample? || c.ToReport?
  }

  /** One step of a contender at clock reading `now`. */
  function Moved(c: Contender, b: Board, move: Move, now: real): (Contender, Board)
    requires CanMove(c, move)
  {
    match move
    case BreakBarrier => (LostAtBarrier, b.(crashed := b.crashed + [BarrierFailed]))
    case Release => (Calling(now), b)
    case Raise => (Raised(c.started), b.(crashed := b.crashed + [CallRaised]))
    case Return(response) => (Returned(c.started, response), b)
    case Continue =>
      match c
      case Raised(started) =>
        (LostInCall(Interval(started, now)), b.(intervals := b.intervals + [Interval(started, now)]))
      case Returned(started, response) =>
        (ToSample(Interval(started, now), response), b.(intervals := b.intervals + [Interval(started, now)]))
      case ToSample(interval, response) => (ToReport(interval, response), b.(latency := b.latency + [response.elapsed]))
      case ToReport(interval, response) => (Answered(interval, response), b.(responses := b.responses + [response]))
      case _ => (c, b)
  }

  datatype State = State(
    contenders: seq<Contender>, board: Board, clock: real,
    timed: seq<nat>   // whose interval is whose: history, read by no step
  )

  datatype Step = Step(i: nat, move: Move, now: real)

  predicate Enabled(s: State, step: Step) {
    step.i < |s.contenders| && CanMove(s.contenders[step.i], step.move) && step.now >= s.clock
  }

  function Next(s: State, step: Step): State
    requires Enabled(s, step)
  {
    var (c, b) := Moved(s.contenders[step.i], s.board, step.move, step.now);
    var timed := if |b.intervals| > |s.board.intervals| then s.timed + [step.i] else s.timed;
    State(s.contenders[step.i := c], b, step.now, timed)
  }

  function Line(n: nat): (cs: seq<Contender>)
    ensures |cs| == n && forall i :: 0 <= i < n ==> cs[i] == AtBarrier
  {
    seq(n, _ => AtBarrier)
  }

  /** Where `steps` lead a burst of `n` contenders, if each can be taken in its turn. */
  function Run(n: nat, steps: seq<Step>): Option<State> {
    if steps == [] then Some(State(Line(n), Board([], [], [], []), 0.0, []))
    else
      var step := steps[|steps| - 1];
      match Run(n, steps[..|steps| - 1])
      case None => None
      case Some(s) => if Enabled(s, step) then Some(Next(s, step)) else None
  }

  predicate Finished(s: State) { forall i :: 0 <= i < |s.contenders| ==> IsOver(s.contenders[i]) }

  // ------------------------------------------------------------------
  // What is conserved
  // ------------------------------------------------------------------

  /** A refusal that is a clean domain conflict with the expected code. */
  predicate IsCleanRefusal(r: Response, expected: string) {
    !IsOk(r) && RefusalKey(r) == expected && IsDomainConflict(r)
  }

  predicate IsDomainConflict(r: Response) { r.status == 400 || r.status == 409 || r.status == 422 }

  datatype Measure =
    | Crashes | Intervals | Samples | Responses | Wins | CleanRefusals(expected: string)

  function CountWins(responses: seq<Response>): nat {
    if responses == [] then 0 else CountWins(responses[..|responses| - 1]) + Bit(IsOk(responses[|responses| - 1]))
  }

  function CountClean(responses: seq<Response>, expected: string): nat {
    if responses == [] then 0
    else CountClean(responses[..|responses| - 1], expected) + Bit(IsCleanRefusal(responses[|responses| - 1], expected))
  }

  function Kept(b: Board, m: Measure): nat {
    match m
    case Crashes => |b.crashed|
    case Intervals => |b.intervals|
    case Samples => |b.latency|
    case Responses => |b.responses|
    case Wins => CountWins(b.responses)
    case CleanRefusals(expected) => CountClean(b.responses, expected)
  }

  function Due(c: Contender, m: Measure): nat {
    match m
    case Crashes => Bit(c.Raised? || c.LostAtBarrier? || c.LostInCall?)
    case Intervals => Bit(IsTimed(c))
    case Samples => Bit(c.ToReport? || c.Answered?)
    case Responses => Bit(c.Answered?)
    case Wins => Bit(c.Answered? && IsOk(c.response))
    case CleanRefusals(expected) => Bit(c.Answered? && IsCleanRefusal(c.response, expected))
  }

  function Sum(cs: seq<Contender>, m: Measure): nat {
    if cs == [] then 0 else Sum(cs[..|cs| - 1], m) + Due(cs[|cs| - 1], m)
  }

  lemma ResponsesSnoc(responses: seq<Response>, r: Response, expected: string)
    ensures CountWins(responses + [r]) == CountWins(responses) + Bit(IsOk(r))
    ensures CountClean(responses + [r], expected) == CountClean(responses, expected) + Bit(IsCleanRefusal(r, expected))
  {
    assert (responses + [r])[..|responses + [r]| - 1] == responses;
  }

  lemma MoveKeeps(c: Contender, b: Board, move: Move, now: real, m: Measure)
    requires CanMove(c, move)
    ensures var (c', b') := Moved(c, b, move, now);
      Kept(b', m) + Due(c, m) == Kept(b, m) + Due(c', m)
  {
    if c.ToReport? {
      ResponsesSnoc(b.responses, c.response, if m.CleanRefusals? then m.expected else "");
    }
  }

  lemma {:induction false} SumUpdate(cs: seq<Contender>, i: nat, c: Contender, m: Measure)
    requires i < |cs|
    ensures Sum(cs[i := c], m) + Due(cs[i], m) == Sum(cs, m) + Due(c, m)
  {
    var n := |cs| - 1;
    if i < n {
      SumUpdate(cs[..n], i, c, m);
      assert cs[i := c][..n] == cs[..n][i := c];
    } else {
      assert cs[i := c][..n] == cs[..n];
    }
  }

  lemma {:induction false} LineSum(n: nat, m: Measure)
    ensures Sum(Line(n), m) == 0
  {
    if n > 0 {
      LineSum(n - 1, m);
      assert Line(n)[..n - 1] == Line(n - 1);
    }
  }

  ghost predicate Balanced(s: State) {
    forall m: Measure :: Kept(s.board, m) == Sum(s.contenders, m)
  }

  /** A contender's start is in the past. */
  ghost predicate StartedBy(c: Contender, clock: real) {
    c.Calling? || c.Raised? || c.Returned? ==> c.started <= clock
  }

  ghost predicate Timely(s: State) {
    && WellTimed(s.board.intervals)
    && forall i :: 0 <= i < |s.contenders| ==> StartedBy(s.contenders[i], s.clock)
  }

  lemma StepBalances(s: State, step: Step)
    requires Balanced(s) && Enabled(s, step)
    ensures Balanced(Next(s, step))
  {
    var s' := Next(s, step);
    forall m: Measure ensures Kept(s'.board, m) == Sum(s'.contenders, m) {
      MoveKeeps(s.contenders[step.i], s.board, step.move, step.now, m);
      SumUpdate(s.contenders, step.i, s'.contenders[step.i], m);
    }
  }

  lemma StepTimely(s: State, step: Step)
    requires Timely(s) && Enabled(s, step)
    ensures Timely(Next(s, step))
  {
    assert StartedBy(s.contenders[step.i], s.clock);
  }

  predicate HasInterval(c: Contender, interval: Interval) { IsTimed(c) && c.interval == interval }

  /** Interval `k` is that of contender `timed[k]`, and no contender has two. */
  ghost predicate Attributed(cs: seq<Contender>, timed: seq<nat>, intervals: seq<Interval>) {
    && |timed| == |intervals|
    && (forall k :: 0 <= k < |timed| ==> timed[k] < |cs| && HasInterval(cs[timed[k]], intervals[k]))
    && (forall k, l :: 0 <= k < l < |timed| ==> timed[k] != timed[l])
  }

  /** A move times its contender for the first time, or leaves its interval and the list as they are. */
  lemma MoveTimes(c: Contender, b: Board, move: Move, now: real)
    requires CanMove(c, move)
    ensures var (c', b') := Moved(c, b, move, now);
      if |b'.intervals| > |b.intervals|
      then !IsTimed(c) && IsTimed(c') && b'.intervals == b.intervals + [c'.interval]
      else b'.intervals == b.intervals && (IsTimed(c) ==> HasInterval(c', c.interval))
  {
  }

  lemma FirstTimed(cs: seq<Contender>, timed: seq<nat>, intervals: seq<Interval>, i: nat, c: Contender)
    requires Attributed(cs, timed, intervals) && i < |cs| && !IsTimed(cs[i]) && IsTimed(c)
    ensures Attributed(cs[i := c], timed + [i], intervals + [c.interval])
  {
    forall k | 0 <= k < |timed| ensures timed[k] != i {
      assert HasInterval(cs[timed[k]], intervals[k]);
    }
  }

  lemma StaysTimed(cs: seq<Contender>, timed: seq<nat>, intervals: seq<Interval>, i: nat, c: Contender)
    requires Attributed(cs, timed, intervals) && i < |cs| && (IsTimed(cs[i]) ==> HasInterval(c, cs[i].interval))
    ensures Attributed(cs[i := c], timed, intervals)
  {
    forall k | 0 <= k < |timed| ensures HasInterval(cs[i := c][timed[k]], intervals[k]) {
      assert HasInterval(cs[timed[k]], intervals[k]);
    }
  }

  lemma StepAttributes(s: State, step: Step)
    requires Attributed(s.contenders, s.timed, s.board.intervals) && Enabled(s, step)
    ensures var s' := Next(s, step); Attributed(s'.contenders, s'.timed, s'.board.intervals)
  {
    var s', c := Next(s, step), s.contenders[step.i];
    MoveTimes(c, s.board, step.move, step.now);
    if |s'.board.intervals| > |s.board.intervals| {
      FirstTimed(s.contenders, s.timed, s.board.intervals, step.i, s'.contenders[step.i]);
    } else {
      StaysTimed(s.contenders, s.timed, s.board.intervals, step.i, s'.contenders[step.i]);
    }
  }

  /** In every interleaving each list holds exactly what the contenders have put there. */
  lemma {:induction false} RunInv(n: nat, steps: seq<Step>)
    ensures Run(n, steps).Some? ==>
      var s := Run(n, steps).value;
      |s.contenders| == n && Balanced(s) && Timely(s)
      && Attributed(s.contenders, s.timed, s.board.intervals)
  {
    if steps == [] {
      forall m: Measure ensures Sum(Line(n), m) == 0 {
        LineSum(n, m);
      }
    } else if Run(n, steps).Some? {
      var s, step := Run(n, steps[..|steps| - 1]).value, steps[|steps| - 1];
      RunInv(n, steps[..|steps| - 1]);
      StepBalances(s, step);
      StepTimely(s, step);
      StepAttributes(s, step);
    }
  }

  // ------------------------------------------------------------------
  // No contender is lost
  // ------------------------------------------------------------------

  function LostAtBarrierCount(cs: seq<Contender>): nat {
    if cs == [] then 0 else LostAtBarrierCount(cs[..|cs| - 1]) + Bit(cs[|cs| - 1].LostAtBarrier?)
  }

  lemma {:induction false} OverSums(cs: seq<Contender>)
    requires forall i :: 0 <= i < |cs| ==> IsOver(cs[i])
    ensures Sum(cs, Responses) + Sum(cs, Crashes) == |cs|
    ensures Sum(cs, Intervals) + LostAtBarrierCount(cs) == |cs|
    ensures Sum(cs, Samples) == Sum(cs, Responses)
  {
    if cs != [] {
      OverSums(cs[..|cs| - 1]);
    }
  }

  lemma {:induction false} FieldsOfRun(n: nat, steps: seq<Step>, s: State)
    requires Run(n, steps) == Some(s)
    ensures |s.contenders| == n && WellTimed(s.board.intervals)
    ensures |s.board.crashed| == Sum(s.contenders, Crashes) && |s.board.intervals| == Sum(s.contenders, Intervals)
    ensures |s.board.latency| == Sum(s.contenders, Samples) && |s.board.responses| == Sum(s.contenders, Responses)
    ensures CountWins(s.board.responses) == Sum(s.contenders, Wins)
    ensures forall expected :: CountClean(s.board.responses, expected) == Sum(s.contenders, CleanRefusals(expected))
  {
    RunInv(n, steps);
    var b := s.board;
    assert |b.crashed| == Kept(b, Crashes) && |b.intervals| == Kept(b, Intervals);
    assert |b.latency| == Kept(b, Samples) && |b.responses| == Kept(b, Responses);
    assert CountWins(b.responses) == Kept(b, Wins);
    forall expected: string ensures CountClean(b.responses, expected) == Sum(s.contenders, CleanRefusals(expected)) {
      assert CountClean(b.responses, expected) == Kept(b, CleanRefusals(expected));
    }
  }

  /** Every contender answered or crashed, and each that got past the barrier left its interval. */
  lemma {:induction false} NobodyIsLost(n: nat, steps: seq<Step>, s: State)
    requires Run(n, steps) == Some(s) && Finished(s)
    ensures |s.board.responses| + |s.board.crashed| == n
    ensures |s.board.intervals| + LostAtBarrierCount(s.contenders) == n
    ensures |s.board.latency| == |s.board.responses|
    ensures WellTimed(s.board.intervals)
  {
    FieldsOfRun(n, steps, s);
    OverSums(s.contenders);
  }

  /** Two different contenders were in flight at once. */
  ghost predicate ContendersOverlapped(cs: seq<Contender>) {
    exists i, j :: 0 <= i < |cs| && 0 <= j < |cs| && i != j && IsTimed(cs[i]) && IsTimed(cs[j])
      && Overlapping(cs[i].interval, cs[j].interval)
  }

  /** Overlapping intervals are those of two different contenders. */
  lemma OverlapIsOfTwo(n: nat, steps: seq<Step>, s: State)
    requires Run(n, steps) == Some(s) && SomeOverlap(s.board.intervals)
    ensures ContendersOverlapped(s.contenders)
  {
    RunInv(n, steps);
    var p, q :| 0 <= p < q < |s.board.intervals| && Overlapping(s.board.intervals[p], s.board.intervals[q]);
    var i, j := s.timed[p], s.timed[q];
    assert HasInterval(s.contenders[i], s.board.intervals[p]) && HasInterval(s.contenders[j], s.board.intervals[q]);
    assert i != j && Overlapping(s.contenders[i].interval, s.contenders[j].interval);
  }

  // ------------------------------------------------------------------
  // The outcome of a burst
  // ------------------------------------------------------------------

  datatype Unexpected = BadStatus(response: Response) | Crashed(crash: Crash)

  datatype RaceOutcome = RaceOutcome(
    name: string, contenders: nat, winners: nat, refusalsByCode: multiset<string>, unexpected: seq<Unexpected>,
    latency: seq<real>, intervals: seq<Interval>)

  function RefusalCodes(responses: seq<Response>): multiset<string> {
    if responses == [] then multiset{}
    else
      var r := responses[|responses| - 1];
      RefusalCodes(responses[..|responses| - 1]) + if IsOk(r) then multiset{} else multiset{RefusalKey(r)}
  }

  function BadStatuses(responses: seq<Response>): seq<Unexpected> {
    if responses == [] then []
    else
      var r := responses[|responses| - 1];
      BadStatuses(responses[..|responses| - 1]) + if IsOk(r) || IsDomainConflict(r) then [] else [BadStatus(r)]
  }

  function AsCrashed(crashed: seq<Crash>): (r: seq<Unexpected>)
    ensures |r| == |crashed|
  {
    seq(|crashed|, i requires 0 <= i < |crashed| => Crashed(crashed[i]))
  }

  function OutcomeOf(name: string, contenders: nat, b: Board): RaceOutcome {
    RaceOutcome(name, contenders, CountWins(b.responses), RefusalCodes(b.responses),
      BadStatuses(b.responses) + AsCrashed(b.crashed), b.latency, b.intervals)
  }

  lemma OutcomeSnoc(responses: seq<Response>, r: Response)
    ensures RefusalCodes(responses + [r]) == RefusalCodes(responses)
        + if IsOk(r) then multiset{} else multiset{RefusalKey(r)}
    ensures BadStatuses(responses + [r]) == BadStatuses(responses)
        + if IsOk(r) || IsDomainConflict(r) then [] else [BadStatus(r)]
  {
    assert (responses + [r])[..|responses + [r]| - 1] == responses;
  }

  method CountWinners(responses: seq<Response>) returns (winners: nat)
    ensures winners == CountWins(responses)
  {
    winners := 0;
    for i := 0 to |responses|
      invariant winners == CountWins(responses[..i])
    {
      assert responses[..i + 1][..i] == responses[..i];
      if IsOk(responses[i]) {
        winners := winners + 1;
      }
    }
    assert responses[..|responses|] == responses;
  }

  method ListRefusals(responses: seq<Response>) returns (refusals: multiset<string>, unexpected: seq<Unexpected>)
    ensures refusals == RefusalCodes(responses) && unexpected == BadStatuses(responses)
  {
    refusals, unexpected := multiset{}, [];
    for i := 0 to |responses|
      invariant refusals == RefusalCodes(responses[..i]) && unexpected == BadStatuses(responses[..i])
    {
      var response := responses[i];
      OutcomeSnoc(responses[..i], response);
      assert responses[..i + 1] == responses[..i] + [response];
      if IsOk(response) {
        continue;
      }
      refusals := refusals + multiset{RefusalKey(response)};
      if !IsDomainConflict(response) {
        unexpected := unexpected + [BadStatus(response)];
      }
    }
    assert responses[..|responses|] == responses;
  }

  method Classify(name: string, contenders: nat, b: Board) returns (outcome: RaceOutcome)
    ensures outcome == OutcomeOf(name, contenders, b)
  {
    var winners := CountWinners(b.responses);
    var refusals, unexpected := ListRefusals(b.responses);
    unexpected := unexpected + AsCrashed(b.crashed);
    outcome := RaceOutcome(name, contenders, winners, refusals, unexpected, b.latency, b.intervals);
  }

  // ------------------------------------------------------------------
  // One winner
  // ------------------------------------------------------------------

  datatype Control = Control(ident: string, passed: bool, ran: bool)

  predicate SingleWinner(race: RaceOutcome, expectedRefusal: string) {
    && race.winners == 1
    && |race.refusalsByCode| == race.contenders - 1
    && (forall code <- race.refusalsByCode :: code == expectedRefusal)
    && race.unexpected == []
  }

  function ControlSingleWinner(race: Option<RaceOutcome>, ident: string, expectedRefusal: string): Control {
    match race
    case None => Control(ident, false, false)
    case Some(outcome) => Control(ident, SingleWinner(outcome, expectedRefusal), true)
  }

  ghost predicate OnlyCode(codes: multiset<string>, expected: string) {
    forall code :: code in codes ==> code == expected
  }

  lemma OnlyCodeAdd(codes: multiset<string>, code: string, expected: string)
    ensures OnlyCode(codes + multiset{code}, expected) <==> OnlyCode(codes, expected) && code == expected
  {
    assert code in codes + multiset{code};
    assert forall c :: c in codes ==> c in codes + multiset{code};
  }

  lemma {:induction false} RefusalsClean(responses: seq<Response>, expected: string)
    ensures |RefusalCodes(responses)| + CountWins(responses) == |responses|
    ensures CountClean(responses, expected) + CountWins(responses) <= |responses|
    ensures CountClean(responses, expected) + CountWins(responses) == |responses| <==>
      OnlyCode(RefusalCodes(responses), expected) && |BadStatuses(responses)| == 0
  {
    if responses != [] {
      var init, r := responses[..|responses| - 1], responses[|responses| - 1];
      RefusalsClean(init, expected);
      if !IsOk(r) {
        OnlyCodeAdd(RefusalCodes(init), RefusalKey(r), expected);
      }
    }
  }

  predicate Won(c: Contender) { c.Answered? && IsOk(c.response) }

  predicate LostCleanly(c: Contender, expected: string) { c.Answered? && IsCleanRefusal(c.response, expected) }

  /** One contender won and every other was refused with the expected code. */
  ghost predicate OneWinner(cs: seq<Contender>, expected: string) {
    exists w :: 0 <= w < |cs| && Won(cs[w]) && forall i :: 0 <= i < |cs| && i != w ==> LostCleanly(cs[i], expected)
  }

  ghost predicate AllClean(cs: seq<Contender>, expected: string) {
    forall i :: 0 <= i < |cs| ==> LostCleanly(cs[i], expected)
  }

  lemma {:induction false} CleanSums(cs: seq<Contender>, expected: string)
    ensures Sum(cs, Wins) + Sum(cs, CleanRefusals(expected)) <= |cs|
    ensures Sum(cs, CleanRefusals(expected)) == |cs| <==> AllClean(cs, expected)
    ensures AllClean(cs, expected) ==> Sum(cs, Wins) == 0
  {
    if cs != [] {
      var init := cs[..|cs| - 1];
      CleanSums(init, expected);
      assert AllClean(cs, expected) <==> AllClean(init, expected) && LostCleanly(cs[|cs| - 1], expected) by {
        assert forall i :: 0 <= i < |init| ==> init[i] == cs[i];
      }
    }
  }

  lemma {:induction false} OneWinnerSums(cs: seq<Contender>, expected: string)
    ensures OneWinner(cs, expected) <==> Sum(cs, Wins) == 1 && Sum(cs, CleanRefusals(expected)) == |cs| - 1
  {
    if cs != [] {
      var n := |cs| - 1;
      var init, last := cs[..n], cs[n];
      OneWinnerSums(init, expected);
      CleanSums(init, expected);
      OneWinnerSnoc(init, last, expected);
      assert cs == init + [last];
    }
  }

  lemma OneWinnerSnoc(init: seq<Contender>, last: Contender, expected: string)
    ensures OneWinner(init + [last], expected) <==>
      (OneWinner(init, expected) && LostCleanly(last, expected)) || (AllClean(init, expected) && Won(last))
  {
    var cs, n := init + [last], |init|;
    assert cs[n] == last && forall i :: 0 <= i < n ==> cs[i] == init[i];
    if OneWinner(cs, expected) {
      var w :| 0 <= w < |cs| && Won(cs[w]) && forall i :: 0 <= i < |cs| && i != w ==> LostCleanly(cs[i], expected);
      if w < n {
        assert Won(init[w]) && LostCleanly(cs[n], expected);
      }
    }
    if OneWinner(init, expected) && LostCleanly(last, expected) {
      var w :| && 0 <= w < |init| && Won(init[w])
               && forall i :: 0 <= i < |init| && i != w ==> LostCleanly(init[i], expected);
      assert Won(cs[w]);
    }
    if AllClean(init, expected) && Won(last) {
      assert Won(cs[n]);
    }
  }

  /**
    The control over a finished burst passes exactly when one contender won and each of the others was
    refused with the expected code; none crashed, was refused otherwise, or is missing.
   */
  lemma SingleWinnerIff(n: nat, steps: seq<Step>, s: State, name: string, expected: string)
    requires Run(n, steps) == Some(s) && Finished(s)
    ensures SingleWinner(OutcomeOf(name, n, s.board), expected) <==> OneWinner(s.contenders, expected)
  {
    FieldsOfRun(n, steps, s);
    NobodyIsLost(n, steps, s);
    RefusalsClean(s.board.responses, expected);
    OneWinnerSums(s.contenders, expected);
    CleanSums(s.contenders, expected);
  }

  // ------------------------------------------------------------------
  // The bursts overlapped
  // ------------------------------------------------------------------

  function Contended(races: seq<RaceOutcome>): seq<RaceOutcome> {
    if races == [] then []
    else
      var rest := Contended(races[..|races| - 1]);
      if races[|races| - 1].contenders > 1 then rest + [races[|races| - 1]] else rest
  }

  /** The peak of each race by its name; a later race of the same name replaces an earlier one. */
  function PeaksByName(races: seq<RaceOutcome>): map<string, int> {
    if races == [] then map[]
    else
      var last := races[|races| - 1];
      PeaksByName(races[..|races| - 1])[last.name := PeakOf(last.intervals)]
  }

  ghost predicate NoneEmpty(races: seq<RaceOutcome>) {
    forall i :: 0 <= i < |races| ==> races[i].intervals != []
  }

  ghost predicate NoneSerialised(races: seq<RaceOutcome>) {
    forall name: string :: name in PeaksByName(races) ==> PeaksByName(races)[name] >= 2
  }

  ghost predicate Overlapped(contended: seq<RaceOutcome>) {
    contended != [] && NoneEmpty(contended) && NoneSerialised(contended)
  }

  /** Control C15. */
  ghost predicate JudgeRaceConcurrency(races: seq<RaceOutcome>) { Overlapped(Contended(races)) }

  ghost predicate IsLastNamed(races: seq<RaceOutcome>, i: nat)
    requires i < |races|
  {
    forall j :: i < j < |races| ==> races[j].name != races[i].name
  }

  lemma LastNamedInit(races: seq<RaceOutcome>, i: nat)
    requires i < |races| - 1
    ensures var n := |races| - 1;
      IsLastNamed(races, i) <==> IsLastNamed(races[..n], i) && races[n].name != races[i].name
  {
    var n := |races| - 1;
    assert forall j :: i < j < n ==> races[..n][j] == races[j];
  }

  lemma {:induction false} PeaksAreLast(races: seq<RaceOutcome>, i: nat)
    requires i < |races| && IsLastNamed(races, i)
    ensures races[i].name in PeaksByName(races) && PeaksByName(races)[races[i].name] == PeakOf(races[i].intervals)
  {
    if i < |races| - 1 {
      LastNamedInit(races, i);
      PeaksAreLast(races[..|races| - 1], i);
    }
  }

  lemma {:induction false} PeaksHaveRace(races: seq<RaceOutcome>, name: string) returns (i: nat)
    requires name in PeaksByName(races)
    ensures i < |races| && IsLastNamed(races, i) && races[i].name == name
  {
    i := |races| - 1;
    if races[i].name != name {
      var n := i;
      i := PeaksHaveRace(races[..n], name);
      LastNamedInit(races, i);
    }
  }

  ghost predicate AllWellTimed(races: seq<RaceOutcome>) {
    forall i :: 0 <= i < |races| ==> WellTimed(races[i].intervals)
  }

  lemma {:induction false} ContendedIs(races: seq<RaceOutcome>)
    ensures forall race :: race in Contended(races) <==> race in races && race.contenders > 1
  {
    if races != [] {
      ContendedIs(races[..|races| - 1]);
      assert races == races[..|races| - 1] + [races[|races| - 1]];
    }
  }

  lemma ContendedTimed(races: seq<RaceOutcome>)
    requires AllWellTimed(races)
    ensures AllWellTimed(Contended(races))
  {
    ContendedIs(races);
    forall i | 0 <= i < |Contended(races)| ensures WellTimed(Contended(races)[i].intervals) {
      assert Contended(races)[i] in races;
    }
  }

  lemma SerialisedIff(races: seq<RaceOutcome>)
    requires AllWellTimed(races)
    ensures NoneSerialised(races) <==>
      forall i :: 0 <= i < |races| && IsLastNamed(races, i) ==> SomeOverlap(races[i].intervals)
  {
    forall i | 0 <= i < |races| ensures PeakOf(races[i].intervals) >= 2 <==> SomeOverlap(races[i].intervals) {
      PeakTwoIffOverlap(races[i].intervals);
    }
    forall i | 0 <= i < |races| && IsLastNamed(races, i)
      ensures races[i].name in PeaksByName(races) && PeaksByName(races)[races[i].name] == PeakOf(races[i].intervals)
    {
      PeaksAreLast(races, i);
    }
    forall name: string | name in PeaksByName(races)
      ensures exists i :: 0 <= i < |races| && IsLastNamed(races, i) && races[i].name == name
    {
      var i := PeaksHaveRace(races, name);
    }
  }

  /** Exactly what C15 establishes: of every name, the last race overlapped, and every race was timed. */
  lemma ConcurrencyPassesIff(races: seq<RaceOutcome>)
    requires AllWellTimed(races)
    ensures var contended := Contended(races);
      JudgeRaceConcurrency(races) <==>
        && contended != [] && NoneEmpty(contended)
        && forall i :: 0 <= i < |contended| && IsLastNamed(contended, i) ==> SomeOverlap(contended[i].intervals)
  {
    ContendedTimed(races);
    SerialisedIff(Contended(races));
  }

  ghost predicate DistinctNames(races: seq<RaceOutcome>) {
    forall i, j :: 0 <= i < j < |races| ==> races[i].name != races[j].name
  }

  lemma {:induction false} ContendedDistinct(races: seq<RaceOutcome>)
    requires DistinctNames(races)
    ensures DistinctNames(Contended(races))
  {
    if races != [] {
      var init, last := races[..|races| - 1], races[|races| - 1];
      ContendedDistinct(init);
      ContendedIs(init);
      forall i | 0 <= i < |Contended(init)| ensures Contended(init)[i].name != last.name {
        assert Contended(init)[i] in init;
      }
    }
  }

  /** When no two races share a name, C15 passes exactly when there is a contended race and each of them overlapped. */
  lemma ConcurrencyPassesWhenNamed(races: seq<RaceOutcome>)
    requires AllWellTimed(races) && DistinctNames(races)
    ensures JudgeRaceConcurrency(races) <==>
      && Contended(races) != []
      && forall race :: race in races && race.contenders > 1 ==> SomeOverlap(race.intervals)
  {
    var contended := Contended(races);
    ConcurrencyPassesIff(races);
    ContendedDistinct(races);
    ContendedIs(races);
    assert forall i :: 0 <= i < |contended| ==> IsLastNamed(contended, i);
    assert forall i :: 0 <= i < |contended| ==> contended[i] in races;
  }

  lemma {:induction false} ContendedPrepend(race: RaceOutcome, races: seq<RaceOutcome>)
    requires race.contenders > 1
    ensures Contended([race] + races) == [race] + Contended(races)
  {
    var all := [race] + races;
    if races == [] {
      assert all[..0] == [] && all == [race];
    } else {
      ContendedPrepend(race, races[..|races| - 1]);
      assert all[..|all| - 1] == [race] + races[..|races| - 1];
    }
  }

  lemma PeaksSnoc(races: seq<RaceOutcome>, last: RaceOutcome)
    ensures PeaksByName(races + [last]) == PeaksByName(races)[last.name := PeakOf(last.intervals)]
  {
    assert (races + [last])[..|races + [last]| - 1] == races;
  }

  /** `m` with an entry that what is there already hides. */
  function Under(m: map<string, int>, name: string, peak: int): map<string, int> {
    if name in m then m else m[name := peak]
  }

  lemma UnderUpdate(m: map<string, int>, name: string, peak: int, last: string, value: int)
    ensures Under(m[last := value], name, peak) == Under(m, name, peak)[last := value]
  {
  }

  lemma {:induction false} PeaksPrepend(race: RaceOutcome, races: seq<RaceOutcome>)
    ensures PeaksByName([race] + races) == Under(PeaksByName(races), race.name, PeakOf(race.intervals))
  {
    if races == [] {
      PeaksSnoc([], race);
      assert [race] + races == [] + [race];
    } else {
      var init, last := races[..|races| - 1], races[|races| - 1];
      PeaksPrepend(race, init);
      PeaksSnoc([race] + init, last);
      assert [race] + races == [race] + init + [last];
      UnderUpdate(PeaksByName(init), race.name, PeakOf(race.intervals), last.name, PeakOf(last.intervals));
    }
  }

  lemma {:induction false} NamedHasPeak(races: seq<RaceOutcome>, race: RaceOutcome)
    requires race in races
    ensures race.name in PeaksByName(races)
  {
    if race != races[|races| - 1] {
      assert race in races[..|races| - 1];
      NamedHasPeak(races[..|races| - 1], race);
    }
  }

  lemma NoneEmptyPrepend(race: RaceOutcome, races: seq<RaceOutcome>)
    requires NoneEmpty(races) && race.intervals != []
    ensures NoneEmpty([race] + races)
  {
  }

  lemma HiddenAmongContended(queue: RaceOutcome, contended: seq<RaceOutcome>, race: RaceOutcome)
    requires Overlapped(contended) && queue.intervals != []
    requires race in contended && race.name == queue.name
    ensures Overlapped([queue] + contended)
  {
    NoneEmptyPrepend(queue, contended);
    NamedHasPeak(contended, race);
    PeaksPrepend(queue, contended);
  }

  /** A race that was a queue goes unnoticed when a later contended race has its name. */
  lemma {:induction false} SharedNameHidesRace(queue: RaceOutcome, races: seq<RaceOutcome>, race: RaceOutcome)
    requires JudgeRaceConcurrency(races) && queue.contenders > 1 && queue.intervals != []
    requires race in Contended(races) && race.name == queue.name
    ensures JudgeRaceConcurrency([queue] + races)
  {
    ContendedPrepend(queue, races);
    HiddenAmongContended(queue, Contended(races), race);
  }

  lemma OneRacePasses(race: RaceOutcome)
    requires race.contenders > 1 && WellTimed(race.intervals) && SomeOverlap(race.intervals)
    ensures race in Contended([race]) && JudgeRaceConcurrency([race])
  {
    ContendedIs([race]);
    assert DistinctNames([race]) && AllWellTimed([race]);
    assert race in [race];
    ConcurrencyPassesWhenNamed([race]);
  }

  /** Two races of one name, the first a queue: C15 passes although that race never overlapped. */
  lemma ConcurrencyNeedsNames() returns (queue: RaceOutcome, race: RaceOutcome)
    ensures queue.contenders > 1 && WellTimed(queue.intervals) && PeakOf(queue.intervals) <= 1
    ensures JudgeRaceConcurrency([queue] + [race])
  {
    var serial := [Interval(0.0, 1.0), Interval(1.0, 2.0)];
    var together := [Interval(0.0, 2.0), Interval(1.0, 3.0)];
    queue := RaceOutcome("race", 2, 1, multiset{}, [], [], serial);
    race := RaceOutcome("race", 2, 1, multiset{}, [], [], together);
    SerialBurstPeaksAtOne(serial);
    assert SomeOverlap(together) by {
      assert Overlapping(together[0], together[1]);
    }
    OneRacePasses(race);
    SharedNameHidesRace(queue, [race], race);
  }
}
