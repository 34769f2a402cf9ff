/** The verdict of a run over its controls, and what the word MEASURED stands for. */
module Verdict {
  import opened Wrappers
  import C = Confirmations
  import M = Mailbox
  import O = Organic
  import R = Races
  import opened Overlap
  import opened Responses
  import TrafficPlan

  // ------------------------------------------------------------------
  // The verdict
  // ------------------------------------------------------------------

  datatype Verdict = Measured | Incomplete | Void

  /** The controls a run must account for. */
  const REQUIRED_CONTROL_IDS: set<string> := {
    "C1", "C2", "C3", "C4", "C5", "C6", "C7", "C8", "C9", "C10", "C11", "C12", "C13", "C14", "C15"
  }

  function Idents(controls: seq<R.Control>): set<string> {
    set i | 0 <= i < |controls| :: controls[i].ident
  }

  /** The required ids that never appeared. */
  function MissingControls(controls: seq<R.Control>): set<string> { REQUIRED_CONTROL_IDS - Idents(controls) }

  predicate HasFailed(controls: seq<R.Control>) {
    exists i :: 0 <= i < |controls| && controls[i].ran && !controls[i].passed
  }

  predicate HasSkipped(controls: seq<R.Control>) {
    exists i :: 0 <= i < |controls| && !controls[i].ran
  }

  function VerdictFor(controls: seq<R.Control>): Verdict {
    if MissingControls(controls) != {} then Void
    else if HasFailed(controls) then Void
    else if HasSkipped(controls) then Incomplete
    else Measured
  }

  lemma NothingLeft(a: set<string>, b: set<string>)
    ensures a - b == {} <==> a <= b
  {
    if a - b == {} {
      forall x | x in a ensures x in b {
        assert x !in a - b;
      }
    }
  }

  /** MEASURED exactly when every required id appeared and every control ran and passed. */
  lemma MeasuredIff(controls: seq<R.Control>)
    ensures VerdictFor(controls) == Measured <==>
      && REQUIRED_CONTROL_IDS <= Idents(controls)
      && forall control :: control in controls ==> control.ran && control.passed
  {
    NothingLeft(REQUIRED_CONTROL_IDS, Idents(controls));
    if forall control :: control in controls ==> control.ran && control.passed {
      assert forall i :: 0 <= i < |controls| ==> controls[i] in controls;
    } else {
      var control :| control in controls && !(control.ran && control.passed);
      var i :| 0 <= i < |controls| && controls[i] == control;
      assert !controls[i].ran || !controls[i].passed;
    }
  }

  function Badness(v: Verdict): nat {
    match v
    case Measured => 0
    case Incomplete => 1
    case Void => 2
  }

  lemma MoreFindings(controls: seq<R.Control>, more: seq<R.Control>)
    ensures HasFailed(controls) ==> HasFailed(controls + more)
    ensures HasSkipped(controls) ==> HasSkipped(controls + more)
    ensures Idents(controls) <= Idents(controls + more)
  {
    var all := controls + more;
    assert forall i :: 0 <= i < |controls| ==> all[i] == controls[i];
    if HasFailed(controls) {
      var i :| 0 <= i < |controls| && controls[i].ran && !controls[i].passed;
      assert all[i].ran && !all[i].passed;
    }
    if HasSkipped(controls) {
      var i :| 0 <= i < |controls| && !controls[i].ran;
      assert !all[i].ran;
    }
    forall ident | ident in Idents(controls) ensures ident in Idents(all) {
      var i :| 0 <= i < |controls| && controls[i].ident == ident;
      assert all[i].ident == ident;
    }
  }

  /** Once all required ids are there, no further control can improve the verdict. */
  lemma MoreControlsNeverHelp(controls: seq<R.Control>, more: seq<R.Control>)
    requires MissingControls(controls) == {}
    ensures Badness(VerdictFor(controls)) <= Badness(VerdictFor(controls + more))
  {
    MoreFindings(controls, more);
    NothingLeft(REQUIRED_CONTROL_IDS, Idents(controls));
    NothingLeft(REQUIRED_CONTROL_IDS, Idents(controls + more));
  }

  // ------------------------------------------------------------------
  // What a measured run has shown
  // ------------------------------------------------------------------

  /** A finished burst: its name, its `n` contenders, and how they got there. */
  datatype Burst = Burst(name: string, n: nat, steps: seq<R.Step>, end: R.State)

  ghost predicate IsBurst(b: Burst) { R.Run(b.n, b.steps) == Some(b.end) && R.Finished(b.end) }

  /** A finished organic phase. */
  datatype Organic = Organic(plan: seq<TrafficPlan.PlannedBooking>, steps: seq<O.Step>, end: O.State)

  ghost predicate IsOrganic(o: Organic) { O.Run(o.plan, o.steps) == Some(o.end) && O.Finished(o.end) }

  /** A measurement of confirmations over an identified read of the mailbox of `server`. */
  datatype Confirmed = Confirmed(
    server: M.Server, sources: M.Sources, base: M.MailboxRead, read: M.MailboxRead,
    latency: seq<real>, coverage: C.Coverage)

  ghost predicate IsConfirmed(c: Confirmed, booked: seq<O.BookedRef>) {
    && M.Outcome(c.server, c.base) && M.Identified(c.base, c.read, c.sources)
    && C.Measures(c.latency, c.coverage, c.read, booked)
  }

  function OutcomeOfBurst(b: Burst): R.RaceOutcome { R.OutcomeOf(b.name, b.n, b.end.board) }

  function Outcomes(bursts: seq<Burst>): (races: seq<R.RaceOutcome>)
    ensures |races| == |bursts| && forall i :: 0 <= i < |bursts| ==> races[i] == OutcomeOfBurst(bursts[i])
  {
    seq(|bursts|, i requires 0 <= i < |bursts| => OutcomeOfBurst(bursts[i]))
  }

  /** Finished bursts, no two of one name. */
  ghost predicate AreBursts(bursts: seq<Burst>) {
    && (forall i :: 0 <= i < |bursts| ==> IsBurst(bursts[i]))
    && (forall i, j :: 0 <= i < j < |bursts| ==> bursts[i].name != bursts[j].name)
  }

  /** The control over the same-slot burst. */
  function C10(b: Burst): R.Control {
    R.ControlSingleWinner(Some(OutcomeOfBurst(b)), "C10", COLLISION)
  }

  function C13(o: Organic): R.Control {
    R.Control("C13", O.JudgeOrganicAccounting(o.end.result, |o.plan|), true)
  }

  function C14(c: Confirmed): R.Control {
    R.Control("C14", C.JudgeConfirmationCoverage(c.coverage), true)
  }

  /** The control over all bursts. */
  ghost function C15(bursts: seq<Burst>): R.Control {
    R.Control("C15", R.JudgeRaceConcurrency(Outcomes(bursts)), true)
  }

  lemma MeasuredPasses(controls: seq<R.Control>, control: R.Control)
    requires VerdictFor(controls) == Measured && control in controls
    ensures control.passed
  {
    MeasuredIff(controls);
  }

  /** One success, every other contender refused for the taken slot, nobody crashed or missing. */
  lemma {:induction false} MeasuredMeansOneWinner(controls: seq<R.Control>, b: Burst)
    requires VerdictFor(controls) == Measured && IsBurst(b) && C10(b) in controls
    ensures R.OneWinner(b.end.contenders, COLLISION)
    ensures b.end.board.crashed == [] && |b.end.board.responses| == b.n
  {
    MeasuredPasses(controls, C10(b));
    R.SingleWinnerIff(b.n, b.steps, b.end, b.name, COLLISION);
    R.NobodyIsLost(b.n, b.steps, b.end);
    assert |OutcomeOfBurst(b).unexpected| == 0;
  }

  /** Every planned intent ended in ordinary traffic, and the numbers of the phase reconcile. */
  lemma {:induction false} MeasuredMeansExplained(controls: seq<R.Control>, o: Organic)
    requires VerdictFor(controls) == Measured && IsOrganic(o) && C13(o) in controls
    ensures o.plan != [] && O.Clean(o.end.tasks)
    ensures O.CreateTotal(o.end.result) == |o.plan| && O.FollowUpTotal(o.end.result) == o.end.result.followUpsAttempted
  {
    MeasuredPasses(controls, C13(o));
    O.AccountingPassesIff(o.plan, o.steps, o.end);
    O.CategoriesSumToPlan(o.plan, o.steps, o.end);
  }

  /** The whole mailbox was read, and there is one delay for every booking that was not superseded. */
  lemma {:induction false} MeasuredMeansConfirmed(controls: seq<R.Control>, c: Confirmed, booked: seq<O.BookedRef>)
    requires VerdictFor(controls) == Measured && IsConfirmed(c, booked) && C14(c) in controls
    ensures c.read.complete && |c.read.messages| == c.read.reportedTotal
    ensures |c.latency| == |booked| - c.coverage.superseded
    ensures C.DistinctUids(c.read.messages, booked)
    ensures forall i :: 0 <= i < |booked| ==> C.WasTold(c.read.messages, booked[i])
  {
    MeasuredPasses(controls, C14(c));
    C.CoveragePassesIff(c.latency, c.coverage, c.read, booked);
    C.PassMeansWholeSample(c.latency, c.coverage, c.read, booked);
    M.IdentifiedMeans(c.server, c.base, c.read, c.sources);
  }

  lemma BurstsAreTimed(bursts: seq<Burst>)
    requires AreBursts(bursts)
    ensures R.AllWellTimed(Outcomes(bursts)) && R.DistinctNames(Outcomes(bursts))
  {
    forall i | 0 <= i < |bursts| ensures WellTimed(Outcomes(bursts)[i].intervals) {
      R.NobodyIsLost(bursts[i].n, bursts[i].steps, bursts[i].end);
    }
  }

  /** Some burst was contended, and in each that was two different contenders were in flight at once. */
  lemma {:induction false} MeasuredMeansOverlapped(controls: seq<R.Control>, bursts: seq<Burst>)
    requires VerdictFor(controls) == Measured && AreBursts(bursts) && C15(bursts) in controls
    ensures exists b :: b in bursts && b.n > 1
    ensures forall b :: b in bursts && b.n > 1 ==> R.ContendersOverlapped(b.end.contenders)
  {
    var races := Outcomes(bursts);
    MeasuredPasses(controls, C15(bursts));
    BurstsAreTimed(bursts);
    R.ConcurrencyPassesWhenNamed(races);
    SomeContended(bursts);
    forall b | b in bursts && b.n > 1 ensures R.ContendersOverlapped(b.end.contenders) {
      var i :| 0 <= i < |bursts| && bursts[i] == b;
      assert races[i] in races;
      R.OverlapIsOfTwo(b.n, b.steps, b.end);
    }
  }

  lemma SomeContended(bursts: seq<Burst>)
    requires R.Contended(Outcomes(bursts)) != []
    ensures exists b :: b in bursts && b.n > 1
  {
    var races := Outcomes(bursts);
    R.ContendedIs(races);
    var race := R.Contended(races)[0];
    assert race in R.Contended(races);
    var i :| 0 <= i < |races| && races[i] == race;
    assert bursts[i] in bursts;
  }

  /** A measured run, all at once: what the headline rests on. */
  lemma {:induction false} MeasuredMeans(
    controls: seq<R.Control>, b: Burst, o: Organic, c: Confirmed, bursts: seq<Burst>)
    requires VerdictFor(controls) == Measured
    requires AreBursts(bursts) && b in bursts && IsOrganic(o) && IsConfirmed(c, o.end.result.booked)
    requires C10(b) in controls && C13(o) in controls && C14(c) in controls && C15(bursts) in controls
    ensures R.OneWinner(b.end.contenders, COLLISION)
    ensures O.Clean(o.end.tasks) && O.CreateTotal(o.end.result) == |o.plan|
    ensures |c.latency| == |o.end.result.booked| - c.coverage.superseded
    ensures C.DistinctUids(c.read.messages, o.end.result.booked)
    ensures forall x :: x in bursts && x.n > 1 ==> R.ContendersOverlapped(x.end.contenders)
  {
    MeasuredMeansOneWinner(controls, b);
    MeasuredMeansExplained(controls, o);
    MeasuredMeansConfirmed(controls, c, o.end.result.booked);
    MeasuredMeansOverlapped(controls, bursts);
  }
}
