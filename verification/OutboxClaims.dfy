/**
  The outbox worker's claim, lease and settle protocol, as a system of database transactions.

  Any number of drain passes run at once, over rows that others enqueue, re-time, void, erase and
  revive meanwhile.  A step is one committed transaction; the steps of different passes interleave
  in every possible way, and a pass may crash between any two.  Between its claim and its settle a
  pass executes the effect, with no transaction open.
 */
module OutboxClaims {
  import opened Wrappers

  type Id = nat

  type Worker = string

  /** Microseconds, on the clock of whoever takes the step: no two clocks need agree. */
  type Instant = int

  const SECOND: int := 1_000_000

  datatype Status = Pending | Claimed | Failed | Delivered | Dead | Skipped | Unknown | Voided | Purged

  /** How an execution went; a deferral may name its own distance. */
  datatype Outcome = Delivered | Failed | Deferred(wait: Option<int>) | Skipped | Unknown

  /** How a claim ended: a result was written, of the claim number `executed`, or none ever will be. */
  datatype End = Settled(outcome: Outcome, executed: nat) | Recovered(at: Instant) | Retired | Erased

  /** A deleted row is kept, as `Purged`, for its history; no query matches it. */
  datatype Row = Row(
    status: Status,
    claimedBy: Option<Worker>,
    lease: Option<Instant>,
    nextRetry: Option<Instant>,
    attempts: nat,
    ends: seq<End>,    // how each claim so far ended, in order: history, read by no step
    revived: nat       // how many had ended when an operator last revived the row: history
  )

  /** A claimed intent in the hands of a pass: its row's claim number `ticket`, good until `deadline`. */
  datatype Work = Work(id: Id, ticket: nat, deadline: Instant)

  datatype Bucket =
    | Delivered | Failed | Dead | Deferred | Unclaimed | Unknown | Skipped
    | VoidedMidflight | PurgedMidflight | Lost

  datatype Filed = Filed(id: Id, bucket: Bucket)

  datatype Phase =
    | Recovering
    | Draining(todo: seq<Id>)
    | Executing(work: Work, todo: seq<Id>)
    | Vanished(work: Work, todo: seq<Id>)   // the settle found the row no longer ours, and asks why
    | Crashed

  /** A pass, what it planned and what it reported, in order. */
  datatype Pass = Pass(phase: Phase, planned: seq<Id>, report: seq<Filed>)

  datatype Config = Config(workers: seq<Worker>, maxAttempts: nat)

  datatype State = State(rows: map<Id, Row>, passes: seq<Pass>)

  datatype Step =
    | Enqueue(id: Id, due: Option<Instant>)
    | Retime(id: Id, at: Instant)
    | Void(id: Id)
    | Purge(id: Id)
    | Replay(id: Id)
    | Resolve(id: Id, delivered: bool)
    | Recover(p: nat, id: Id, now: Instant)
    | Plan(p: nat, ids: seq<Id>, now: Instant)
    | Claim(p: nat, now: Instant, term: int)
    | Settle(p: nat, now: Instant, outcome: Outcome)
    | Classify(p: nat)
    | Crash(p: nat)

  const NO_ROW := Row(Purged, None, None, None, 0, [], 0)

  function RowOf(s: State, id: Id): Row {
    if id in s.rows then s.rows[id] else NO_ROW
  }

  function Init(c: Config): State {
    State(map[], seq(|c.workers|, _ => Pass(Recovering, [], [])))
  }

  // ------------------------------------------------------------------
  // Steps
  // ------------------------------------------------------------------

  predicate Due(row: Row, now: Instant) {
    && (row.status.Pending? || row.status.Failed?)
    && (row.nextRetry.None? || row.nextRetry.value <= now)
  }

  predicate Expired(row: Row, now: Instant) {
    row.status.Claimed? && row.lease.Some? && row.lease.value <= now
  }

  predicate Live(row: Row) {
    row.status.Pending? || row.status.Failed? || row.status.Claimed?
  }

  predicate StillOurs(row: Row, worker: Worker) {
    row.status.Claimed? && row.claimedBy == Some(worker)
  }

  ghost predicate Distinct<T>(xs: seq<T>) {
    forall i, j :: 0 <= i < j < |xs| ==> xs[i] != xs[j]
  }

  ghost predicate Enabled(s: State, step: Step) {
    match step
    case Enqueue(id, _) => id !in s.rows
    case Retime(id, _) => RowOf(s, id).status.Pending? || RowOf(s, id).status.Failed?
    case Void(id) => Live(RowOf(s, id))
    case Purge(id) => !RowOf(s, id).status.Purged?
    case Replay(id) => RowOf(s, id).status.Dead?
    case Resolve(id, _) => RowOf(s, id).status.Unknown?
    case Recover(p, id, now) => p < |s.passes| && s.passes[p].phase.Recovering? && Expired(RowOf(s, id), now)
    case Plan(p, ids, now) =>
      && p < |s.passes| && s.passes[p].phase.Recovering?
      && Distinct(ids) && (forall id :: id in ids ==> Due(RowOf(s, id), now))
    case Claim(p, _, _) => p < |s.passes| && s.passes[p].phase.Draining? && s.passes[p].phase.todo != []
    case Settle(p, _, _) => p < |s.passes| && s.passes[p].phase.Executing?
    case Classify(p) => p < |s.passes| && s.passes[p].phase.Vanished?
    case Crash(p) => p < |s.passes| && !s.passes[p].phase.Crashed?
  }

  function SetRow(s: State, id: Id, row: Row): State {
    s.(rows := s.rows[id := row])
  }

  function SetPhase(s: State, p: nat, phase: Phase): State
    requires p < |s.passes|
  {
    s.(passes := s.passes[p := s.passes[p].(phase := phase)])
  }

  /** The pass files an item and goes on to the next. */
  function File(s: State, p: nat, id: Id, bucket: Bucket, todo: seq<Id>): State
    requires p < |s.passes|
  {
    var pass := s.passes[p];
    s.(passes := s.passes[p := pass.(phase := Draining(todo), report := pass.report + [Filed(id, bucket)])])
  }

  /** The row is no longer claimed; a claim that stood ends this way. */
  function Released(row: Row, end: End): Row {
    row.(claimedBy := None, lease := None, ends := if row.status.Claimed? then row.ends + [end] else row.ends)
  }

  function Pow2(n: nat): nat {
    if n == 0 then 1 else 2 * Pow2(n - 1)
  }

  /** The wait after the `attempts`-th failure. */
  function Backoff(attempts: nat): int {
    var delay := 30 * Pow2(if attempts == 0 then 0 else attempts - 1);
    if delay < 3600 then delay * SECOND else 3600 * SECOND
  }

  function Written(c: Config, row: Row, ticket: nat, outcome: Outcome, now: Instant): Row {
    var r := Released(row, Settled(outcome, ticket));
    match outcome
    case Deferred(wait) =>
      r.(status := Pending, nextRetry := Some(now + if wait.Some? then wait.value else 30 * SECOND))
    case Skipped => r.(status := Status.Skipped, nextRetry := None)
    case Unknown => r.(status := Status.Unknown, nextRetry := None, attempts := r.attempts + 1)
    case Delivered => r.(status := Status.Delivered, nextRetry := None, attempts := r.attempts + 1)
    case Failed =>
      if r.attempts + 1 >= c.maxAttempts
      then r.(status := Status.Dead, nextRetry := None, attempts := r.attempts + 1)
      else r.(status := Status.Failed, nextRetry := Some(now + Backoff(r.attempts + 1)), attempts := r.attempts + 1)
  }

  function BucketOf(status: Status, outcome: Outcome): Bucket {
    match outcome
    case Deferred(_) => Bucket.Deferred
    case Skipped => Bucket.Skipped
    case Unknown => Bucket.Unknown
    case Delivered => Bucket.Delivered
    case Failed => if status.Dead? then Bucket.Dead else Bucket.Failed
  }

  function Revived(row: Row): Row {
    row.(status := Pending, attempts := 0, nextRetry := None, claimedBy := None, lease := None, revived := |row.ends|)
  }

  /** Why a row is not ours any more. */
  function Why(row: Row): Bucket {
    if row.status.Purged? then PurgedMidflight else if row.status.Voided? then VoidedMidflight else Lost
  }

  function Apply(c: Config, s: State, step: Step): State
    requires |s.passes| == |c.workers| && Enabled(s, step)
  {
    match step
    case Enqueue(id, due) => SetRow(s, id, Row(Pending, None, None, due, 0, [], 0))
    case Retime(id, at) => SetRow(s, id, RowOf(s, id).(nextRetry := Some(at)))
    case Void(id) => SetRow(s, id, Released(RowOf(s, id), Retired).(status := Voided, nextRetry := None))
    case Purge(id) => SetRow(s, id, Released(RowOf(s, id), Erased).(status := Purged))
    case Replay(id) => SetRow(s, id, Revived(RowOf(s, id)))
    case Resolve(id, delivered) =>
      var row := RowOf(s, id);
      SetRow(s, id, if delivered then row.(status := Status.Delivered, nextRetry := None) else Revived(row))
    case Recover(p, id, now) => SetRow(s, id, Released(RowOf(s, id), Recovered(now)).(status := Pending))
    case Plan(p, ids, _) => s.(passes := s.passes[p := Pass(Draining(ids), ids, [])])
    case Claim(p, now, term) =>
      var id, todo := s.passes[p].phase.todo[0], s.passes[p].phase.todo[1..];
      var row := RowOf(s, id);
      if Due(row, now) then
        var claimed := row.(status := Claimed, claimedBy := Some(c.workers[p]), lease := Some(now + term));
        SetPhase(SetRow(s, id, claimed), p, Executing(Work(id, |row.ends|, now + term), todo))
      else File(s, p, id, Unclaimed, todo)
    case Settle(p, now, outcome) =>
      var work, todo := s.passes[p].phase.work, s.passes[p].phase.todo;
      var row := RowOf(s, work.id);
      if StillOurs(row, c.workers[p]) then
        var written := Written(c, row, work.ticket, outcome, now);
        File(SetRow(s, work.id, written), p, work.id, BucketOf(written.status, outcome), todo)
      else SetPhase(s, p, Vanished(work, todo))
    case Classify(p) =>
      var work, todo := s.passes[p].phase.work, s.passes[p].phase.todo;
      File(s, p, work.id, Why(RowOf(s, work.id)), todo)
    case Crash(p) => SetPhase(s, p, Crashed)
  }

  /** Step `i` leads from state `i` to the next. */
  ghost predicate Leads(c: Config, states: seq<State>, steps: seq<Step>, i: nat)
    requires i < |steps| < |states|
  {
    && |states[i].passes| == |c.workers|
    && Enabled(states[i], steps[i])
    && states[i + 1] == Apply(c, states[i], steps[i])
  }

  /** A run: every state is reached from the one before by the step between them. */
  ghost predicate Execution(c: Config, states: seq<State>, steps: seq<Step>) {
    && |states| == |steps| + 1
    && states[0] == Init(c)
    && (forall i :: 0 <= i < |steps| ==> Leads(c, states, steps, i))
  }

  // ------------------------------------------------------------------
  // What every step does to a row
  // ------------------------------------------------------------------

  /** The ways a row may turn: touched while nobody claims it, claimed, or released with its claim's end. */
  predicate Turns(row: Row, row': Row) {
    || row' == row
    || (!row.status.Claimed? && row'.ends == row.ends)
    || (&& row.status.Claimed? && !row'.status.Claimed? && |row'.ends| == |row.ends| + 1
        && row'.ends[..|row.ends|] == row.ends
        && (row'.ends[|row.ends|].Recovered? ==> Expired(row, row'.ends[|row.ends|].at)))
  }

  lemma StepTurns(c: Config, s: State, step: Step, id: Id)
    requires |s.passes| == |c.workers| && Enabled(s, step)
    ensures |Apply(c, s, step).passes| == |s.passes|
    ensures Turns(RowOf(s, id), RowOf(Apply(c, s, step), id))
  {
  }

  // ------------------------------------------------------------------
  // The invariant of a row
  // ------------------------------------------------------------------

  /** The outcomes that cost an attempt. */
  predicate Costs(end: End) {
    end.Settled? && (end.outcome.Delivered? || end.outcome.Failed? || end.outcome.Unknown?)
  }

  function AttemptsSince(ends: seq<End>, from: nat): nat {
    if |ends| <= from then 0
    else AttemptsSince(ends[..|ends| - 1], from) + Bit(Costs(ends[|ends| - 1]))
  }

  /** An end after which the row is never claimed again, and what the row then is. */
  predicate FinalEnd(row: Row, end: End) {
    && (end.Retired? ==> row.status.Voided? || row.status.Purged?)
    && (end.Erased? ==> row.status.Purged?)
    && (end.Settled? && end.outcome.Delivered? ==> row.status.Delivered? || row.status.Purged?)
    && (end.Settled? && end.outcome.Skipped? ==> row.status.Skipped? || row.status.Purged?)
  }

  /** A row whose claim ended so is never claimed again. */
  predicate Final(end: End) {
    end.Retired? || end.Erased? || (end.Settled? && (end.outcome.Delivered? || end.outcome.Skipped?))
  }

  function Limit(c: Config): nat {
    if c.maxAttempts == 0 then 1 else c.maxAttempts
  }

  ghost predicate RowFits(c: Config, row: Row) {
    ColumnsFit(c, row) && EndsFit(row)
  }

  predicate ColumnsFit(c: Config, row: Row) {
    && (row.status.Claimed? <==> row.claimedBy.Some?)
    && (row.status.Claimed? <==> row.lease.Some?)
    && row.revived <= |row.ends| && row.attempts == AttemptsSince(row.ends, row.revived)
    && row.attempts <= Limit(c)
    && (Live(row) ==> row.attempts < Limit(c))
    && (row.status.Dead? ==> row.attempts == Limit(c))
  }

  ghost predicate EndsFit(row: Row) {
    && (forall i :: 0 <= i < |row.ends| ==> FinalEnd(row, row.ends[i]))
    && (forall i :: 0 <= i < |row.ends| && Final(row.ends[i]) ==> i == |row.ends| - 1)
  }

  lemma {:induction false} AttemptsSnoc(ends: seq<End>, end: End, from: nat)
    requires from <= |ends|
    ensures AttemptsSince(ends + [end], from) == AttemptsSince(ends, from) + Bit(Costs(end))
  {
    assert (ends + [end])[..|ends + [end]| - 1] == ends;
  }

  lemma {:induction false} ReleasedColumns(row: Row, end: End)
    requires row.revived <= |row.ends| && row.attempts == AttemptsSince(row.ends, row.revived)
    ensures var r := Released(row, end);
      && r.revived <= |r.ends| && r.claimedBy.None? && r.lease.None?
      && AttemptsSince(r.ends, r.revived) == row.attempts + Bit(row.status.Claimed? && Costs(end))
  {
    AttemptsSnoc(row.ends, end, row.revived);
  }

  /** No claim of a live row ended for good, so any status fits the earlier ends of a claim that ends now. */
  lemma {:induction false} ReleasedEnds(row: Row, row': Row, end: End)
    requires EndsFit(row) && row.status.Claimed? && row'.ends == row.ends + [end] && FinalEnd(row', end)
    ensures EndsFit(row')
  {
    forall i | 0 <= i < |row.ends| ensures !Final(row.ends[i]) { assert FinalEnd(row, row.ends[i]); }
  }

  lemma {:induction false} SameEnds(row: Row, row': Row)
    requires EndsFit(row) && row'.ends == row.ends
    requires row'.status.Purged? || row'.status == row.status || Live(row) || row.status.Dead? || row.status.Unknown?
    ensures EndsFit(row')
  {
    forall i | 0 <= i < |row.ends| ensures FinalEnd(row', row.ends[i]) { assert FinalEnd(row, row.ends[i]); }
  }

  lemma {:induction false} WrittenColumns(c: Config, row: Row, ticket: nat, outcome: Outcome, now: Instant)
    requires ColumnsFit(c, row) && row.status.Claimed?
    ensures ColumnsFit(c, Written(c, row, ticket, outcome, now))
  {
    ReleasedColumns(row, Settled(outcome, ticket));
  }

  lemma {:induction false} WrittenFits(c: Config, row: Row, ticket: nat, outcome: Outcome, now: Instant)
    requires RowFits(c, row) && row.status.Claimed?
    ensures RowFits(c, Written(c, row, ticket, outcome, now))
  {
    WrittenColumns(c, row, ticket, outcome, now);
    ReleasedEnds(row, Written(c, row, ticket, outcome, now), Settled(outcome, ticket));
  }

  lemma {:induction false} RevivedFits(c: Config, row: Row)
    requires RowFits(c, row) && (row.status.Dead? || row.status.Unknown?)
    ensures RowFits(c, Revived(row))
  {
    SameEnds(row, Revived(row));
  }

  lemma {:induction false} ClosedFits(c: Config, row: Row, end: End, status: Status)
    requires RowFits(c, row)
    requires (end == Retired && status == Voided && Live(row)) || (end == Erased && status == Purged)
    ensures RowFits(c, Released(row, end).(status := status))
    ensures RowFits(c, Released(row, end).(status := status, nextRetry := None))
  {
    ReleasedColumns(row, end);
    var closed := Released(row, end).(status := status);
    if row.status.Claimed? { ReleasedEnds(row, closed, end); } else { SameEnds(row, closed); }
    assert EndsFit(closed) ==> EndsFit(closed.(nextRetry := None));
  }

  lemma {:induction false} RecoveredFits(c: Config, row: Row, now: Instant)
    requires RowFits(c, row) && row.status.Claimed?
    ensures RowFits(c, Released(row, Recovered(now)).(status := Pending))
  {
    ReleasedColumns(row, Recovered(now));
    ReleasedEnds(row, Released(row, Recovered(now)).(status := Pending), Recovered(now));
  }

  /** The steps that a pass takes. */
  predicate OfPass(step: Step) {
    step.Recover? || step.Plan? || step.Claim? || step.Settle? || step.Classify? || step.Crash?
  }

  lemma {:induction false} PassRow(c: Config, s: State, step: Step, id: Id)
    requires |s.passes| == |c.workers| && Enabled(s, step) && RowFits(c, RowOf(s, id)) && OfPass(step)
    ensures RowFits(c, RowOf(Apply(c, s, step), id))
  {
    var row := RowOf(s, id);
    match step
    case Recover(_, _, now) => if row.status.Claimed? { RecoveredFits(c, row, now); }
    case Settle(p, now, outcome) =>
      if row.status.Claimed? { WrittenFits(c, row, s.passes[p].phase.work.ticket, outcome, now); }
    case _ =>
  }

  lemma {:induction false} OtherRow(c: Config, s: State, step: Step, id: Id)
    requires |s.passes| == |c.workers| && Enabled(s, step) && RowFits(c, RowOf(s, id)) && !OfPass(step)
    ensures RowFits(c, RowOf(Apply(c, s, step), id))
  {
    var row := RowOf(s, id);
    match step
    case Void(_) => if Live(row) { ClosedFits(c, row, Retired, Voided); }
    case Purge(_) => ClosedFits(c, row, Erased, Purged);
    case Replay(_) => if row.status.Dead? { RevivedFits(c, row); }
    case Resolve(_, _) => if row.status.Unknown? { RevivedFits(c, row); }
    case _ =>
  }

  lemma {:induction false} RowStep(c: Config, s: State, step: Step, id: Id)
    requires |s.passes| == |c.workers| && Enabled(s, step) && RowFits(c, RowOf(s, id))
    ensures RowFits(c, RowOf(Apply(c, s, step), id))
  {
    if OfPass(step) { PassRow(c, s, step, id); } else { OtherRow(c, s, step, id); }
  }

  // ------------------------------------------------------------------
  // The invariant of a pass
  // ------------------------------------------------------------------

  /** The pass has claimed an item and not filed it yet. */
  predicate Holds(s: State, p: nat) {
    p < |s.passes| && (s.passes[p].phase.Executing? || s.passes[p].phase.Vanished?)
  }

  function WorkOf(s: State, p: nat): Work
    requires Holds(s, p)
  {
    s.passes[p].phase.work
  }

  predicate WorkOn(s: State, p: nat, id: Id) {
    Holds(s, p) && WorkOf(s, p).id == id
  }

  /** The claim in hand stands, under the pass's name and with its deadline, or has ended. */
  predicate ClaimFits(row: Row, work: Work, worker: Worker, executing: bool) {
    && work.ticket <= |row.ends|
    && (work.ticket == |row.ends| ==>
          executing && StillOurs(row, worker) && row.lease == Some(work.deadline))
    && (work.ticket < |row.ends| && row.ends[work.ticket].Recovered? ==>
          work.deadline <= row.ends[work.ticket].at)
  }

  predicate WorkFits(c: Config, s: State, p: nat) {
    Holds(s, p) && p < |c.workers| ==>
      ClaimFits(RowOf(s, WorkOf(s, p).id), WorkOf(s, p), c.workers[p], s.passes[p].phase.Executing?)
  }

  predicate TicketsDiffer(s: State, p: nat, q: nat) {
    Holds(s, p) && Holds(s, q) && p != q && WorkOf(s, p).id == WorkOf(s, q).id ==>
      WorkOf(s, p).ticket != WorkOf(s, q).ticket
  }

  /** What the pass has filed, has in hand and has still to do is its plan, in order. */
  ghost predicate PlanKept(pass: Pass) {
    match pass.phase
    case Recovering => pass.planned == [] && pass.report == []
    case Draining(todo) => pass.planned == Ids(pass.report) + todo
    case Executing(work, todo) => pass.planned == Ids(pass.report) + [work.id] + todo
    case Vanished(work, todo) => pass.planned == Ids(pass.report) + [work.id] + todo
    case Crashed => Ids(pass.report) <= pass.planned
  }

  function Ids(report: seq<Filed>): (ids: seq<Id>)
    ensures |ids| == |report| && forall i :: 0 <= i < |ids| ==> ids[i] == report[i].id
  {
    seq(|report|, i requires 0 <= i < |report| => report[i].id)
  }

  ghost predicate Inv(c: Config, s: State) {
    && |s.passes| == |c.workers|
    && (forall id :: RowFits(c, RowOf(s, id)))
    && (forall p: nat :: WorkFits(c, s, p))
    && (forall p: nat, q: nat :: TicketsDiffer(s, p, q))
    && (forall p :: 0 <= p < |s.passes| ==> PlanKept(s.passes[p]))
  }

  lemma TurnKeepsClaim(row: Row, row': Row, work: Work, worker: Worker, executing: bool)
    requires Turns(row, row') && ClaimFits(row, work, worker, executing)
    ensures ClaimFits(row', work, worker, executing)
  {
  }

  /** With this step the pass claims the row of its work, which nobody had claimed. */
  predicate ClaimsNow(c: Config, s: State, step: Step, s': State, p: nat) {
    && step.Claim? && step.p == p && p < |c.workers| && Holds(s', p) && s'.passes[p].phase.Executing?
    && var work := WorkOf(s', p);
       var row, row' := RowOf(s, work.id), RowOf(s', work.id);
       && !row.status.Claimed? && row'.ends == row.ends && work.ticket == |row.ends|
       && StillOurs(row', c.workers[p]) && row'.lease == Some(work.deadline)
  }

  /** The pass goes on holding its work; it finds the row gone only if it is not its own any more. */
  predicate HoldsOn(c: Config, s: State, s': State, p: nat) {
    && Holds(s, p) && Holds(s', p) && p < |c.workers| && WorkOf(s', p) == WorkOf(s, p)
    && (s'.passes[p].phase.Executing? == s.passes[p].phase.Executing?
        || (s'.rows == s.rows && !StillOurs(RowOf(s, WorkOf(s, p).id), c.workers[p])))
  }

  /** A row that is claimed after a step was so before, or was claimed by it. */
  lemma ClaimedTurns(c: Config, s: State, step: Step, id: Id)
    requires |s.passes| == |c.workers| && Enabled(s, step) && RowOf(Apply(c, s, step), id).status.Claimed?
    ensures var s' := Apply(c, s, step);
      || RowOf(s', id) == RowOf(s, id)
      || (step.Claim? && WorkOn(s', step.p, id) && ClaimsNow(c, s, step, s', step.p))
  {
  }

  lemma WorkTurns(c: Config, s: State, step: Step, p: nat)
    requires |s.passes| == |c.workers| && Enabled(s, step) && Holds(Apply(c, s, step), p)
    ensures HoldsOn(c, s, Apply(c, s, step), p) || ClaimsNow(c, s, step, Apply(c, s, step), p)
  {
  }

  lemma {:induction false} WorkStep(c: Config, s: State, step: Step, p: nat)
    requires |s.passes| == |c.workers| && Enabled(s, step) && WorkFits(c, s, p)
    ensures WorkFits(c, Apply(c, s, step), p)
  {
    var s' := Apply(c, s, step);
    if Holds(s', p) && p < |c.workers| {
      var work := WorkOf(s', p);
      WorkTurns(c, s, step, p);
      if HoldsOn(c, s, s', p) {
        StepTurns(c, s, step, work.id);
        TurnKeepsClaim(RowOf(s, work.id), RowOf(s', work.id), work, c.workers[p], s.passes[p].phase.Executing?);
      }
    }
  }

  lemma {:induction false} TicketsStep(c: Config, s: State, step: Step, p: nat, q: nat)
    requires |s.passes| == |c.workers| && Enabled(s, step)
    requires WorkFits(c, s, p) && WorkFits(c, s, q) && TicketsDiffer(s, p, q)
    ensures TicketsDiffer(Apply(c, s, step), p, q)
  {
    var s' := Apply(c, s, step);
    StepTurns(c, s, step, 0);
    if Holds(s', p) && Holds(s', q) && p != q && WorkOf(s', p).id == WorkOf(s', q).id {
      WorkTurns(c, s, step, p);
      WorkTurns(c, s, step, q);
    }
  }

  lemma {:induction false} FileKeepsPlan(s: State, p: nat, id: Id, bucket: Bucket, todo: seq<Id>)
    requires p < |s.passes| && s.passes[p].planned == Ids(s.passes[p].report) + [id] + todo
    ensures PlanKept(File(s, p, id, bucket, todo).passes[p])
  {
    var report := s.passes[p].report;
    assert Ids(report + [Filed(id, bucket)]) == Ids(report) + [id];
  }

  lemma {:induction false} PlanStep(c: Config, s: State, step: Step, p: nat)
    requires |s.passes| == |c.workers| && Enabled(s, step) && p < |s.passes| && PlanKept(s.passes[p])
    ensures PlanKept(Apply(c, s, step).passes[p])
  {
    match step
    case Claim(q, now, _) =>
      if q == p {
        var phase, report := s.passes[p].phase, s.passes[p].report;
        assert phase.todo == [phase.todo[0]] + phase.todo[1..];
        assert Ids(report) + phase.todo == Ids(report) + [phase.todo[0]] + phase.todo[1..];
        FileKeepsPlan(s, p, phase.todo[0], Unclaimed, phase.todo[1..]);
      }
    case Plan(q, ids, _) =>
      assert Ids([]) + ids == ids;
    case Settle(q, now, outcome) =>
      if q == p {
        var work := s.passes[p].phase.work;
        var written := Written(c, RowOf(s, work.id), work.ticket, outcome, now);
        FileKeepsPlan(
          SetRow(s, work.id, written), p, work.id, BucketOf(written.status, outcome), s.passes[p].phase.todo);
      }
    case Classify(q) =>
      if q == p {
        var work := s.passes[p].phase.work;
        FileKeepsPlan(s, p, work.id, Why(RowOf(s, work.id)), s.passes[p].phase.todo);
      }
    case _ =>
  }

  lemma {:induction false} InvStep(c: Config, s: State, step: Step)
    requires Inv(c, s) && Enabled(s, step)
    ensures Inv(c, Apply(c, s, step))
  {
    var s' := Apply(c, s, step);
    StepTurns(c, s, step, 0);
    forall id: Id ensures RowFits(c, RowOf(s', id)) { RowStep(c, s, step, id); }
    forall p: nat ensures WorkFits(c, s', p) { WorkStep(c, s, step, p); }
    forall p: nat, q: nat ensures TicketsDiffer(s', p, q) { TicketsStep(c, s, step, p, q); }
    forall p | 0 <= p < |s'.passes| ensures PlanKept(s'.passes[p]) { PlanStep(c, s, step, p); }
  }

  /** Every state of every run satisfies the invariant. */
  lemma {:induction false} RunInv(c: Config, states: seq<State>, steps: seq<Step>, i: nat)
    requires Execution(c, states, steps) && i <= |steps|
    ensures Inv(c, states[i])
  {
    if i > 0 {
      RunInv(c, states, steps, i - 1);
      assert Leads(c, states, steps, i - 1);
      InvStep(c, states[i - 1], steps[i - 1]);
    }
  }

  lemma {:induction false} Taken(c: Config, states: seq<State>, steps: seq<Step>, i: nat)
    requires Execution(c, states, steps) && i < |steps|
    ensures Inv(c, states[i]) && Enabled(states[i], steps[i]) && states[i + 1] == Apply(c, states[i], steps[i])
  {
    RunInv(c, states, steps, i);
    assert Leads(c, states, steps, i);
  }

  // ------------------------------------------------------------------
  // A result is written only for the claim it was executed for
  // ------------------------------------------------------------------

  /** Every result in the row's history was written for its own claim. */
  ghost predicate OwnResults(row: Row) {
    forall i :: 0 <= i < |row.ends| && row.ends[i].Settled? ==> row.ends[i].executed == i
  }

  /** A claimed row that bears the pass's name is the pass's own claim, and nobody else settled that. */
  predicate NameTells(c: Config, s: State, p: nat) {
    Holds(s, p) && p < |c.workers| ==>
      var row, work := RowOf(s, WorkOf(s, p).id), WorkOf(s, p);
      && (StillOurs(row, c.workers[p]) ==> work.ticket == |row.ends|)
      && (work.ticket < |row.ends| ==> !row.ends[work.ticket].Settled?)
  }

  ghost predicate Named(c: Config, s: State) {
    (forall p: nat :: NameTells(c, s, p)) && (forall id :: OwnResults(RowOf(s, id)))
  }

  /** A step that ends a claim with a result is the settle of the pass whose claim it is. */
  lemma SettleTurns(c: Config, s: State, step: Step, id: Id)
    requires |s.passes| == |c.workers| && Enabled(s, step)
    ensures var row, row' := RowOf(s, id), RowOf(Apply(c, s, step), id);
      |row'.ends| > |row.ends| && row'.ends[|row.ends|].Settled? ==>
        && step.Settle? && WorkOn(s, step.p, id) && StillOurs(row, c.workers[step.p])
        && row'.ends[|row.ends|] == Settled(step.outcome, WorkOf(s, step.p).ticket)
        && !Holds(Apply(c, s, step), step.p)
  {
  }

  lemma {:induction false} ResultsStep(c: Config, s: State, step: Step, id: Id)
    requires |s.passes| == |c.workers| && Enabled(s, step) && OwnResults(RowOf(s, id))
    requires step.Settle? ==> NameTells(c, s, step.p)
    ensures OwnResults(RowOf(Apply(c, s, step), id))
  {
    StepTurns(c, s, step, id);
    SettleTurns(c, s, step, id);
  }

  lemma {:induction false} NameStep(c: Config, s: State, step: Step, p: nat)
    requires Distinct(c.workers) && Inv(c, s) && Enabled(s, step) && Named(c, s)
    ensures NameTells(c, Apply(c, s, step), p)
  {
    var s' := Apply(c, s, step);
    assert NameTells(c, s, p) && WorkFits(c, s, p);
    if Holds(s', p) && p < |c.workers| {
      var id := WorkOf(s', p).id;
      WorkTurns(c, s, step, p);
      StepTurns(c, s, step, id);
      SettleTurns(c, s, step, id);
      if StillOurs(RowOf(s', id), c.workers[p]) { ClaimedTurns(c, s, step, id); }
      if step.Settle? { assert TicketsDiffer(s, p, step.p) && NameTells(c, s, step.p); }
    }
  }

  lemma {:induction false} RunNamed(c: Config, states: seq<State>, steps: seq<Step>, i: nat)
    requires Execution(c, states, steps) && Distinct(c.workers) && i <= |steps|
    ensures Named(c, states[i])
  {
    if i > 0 {
      RunNamed(c, states, steps, i - 1);
      Taken(c, states, steps, i - 1);
      forall p: nat ensures NameTells(c, states[i], p) { NameStep(c, states[i - 1], steps[i - 1], p); }
      forall id: Id ensures OwnResults(RowOf(states[i], id)) {
        assert OwnResults(RowOf(states[i - 1], id));
        if steps[i - 1].Settle? { assert NameTells(c, states[i - 1], steps[i - 1].p); }
        ResultsStep(c, states[i - 1], steps[i - 1], id);
      }
    }
  }

  /** In every run a result is written only for the claim it was executed for. */
  ghost predicate NeverStale(c: Config) {
    forall states: seq<State>, steps: seq<Step>, i: nat, id: Id ::
      Execution(c, states, steps) && i <= |steps| ==> OwnResults(RowOf(states[i], id))
  }

  /** So it is if and only if no two passes bear the same name, which is all that a settle checks. */
  lemma {:induction false} NeverStaleIff(c: Config)
    ensures NeverStale(c) <==> Distinct(c.workers)
  {
    if Distinct(c.workers) {
      forall states: seq<State>, steps: seq<Step>, i: nat, id: Id | Execution(c, states, steps) && i <= |steps|
        ensures OwnResults(RowOf(states[i], id))
      {
        RunNamed(c, states, steps, i);
      }
    } else {
      var p, q :| 0 <= p < q < |c.workers| && c.workers[p] == c.workers[q];
      var states, steps := SharedNameGoesStale(c, p, q);
      assert states[|steps|] == LastOf(states) && RowOf(states[|steps|], 0).ends[1].executed == 0;
    }
  }

  /** The bucket and the row tell the same of an outcome that was written. */
  predicate Agree(bucket: Bucket, status: Status, outcome: Outcome) {
    && (bucket.Delivered? <==> status.Delivered?) && (status.Delivered? <==> outcome.Delivered?)
    && (bucket.Skipped? <==> status.Skipped?) && (status.Skipped? <==> outcome.Skipped?)
    && (bucket.Unknown? <==> status.Unknown?) && (status.Unknown? <==> outcome.Unknown?)
    && (bucket.Deferred? <==> status.Pending?) && (status.Pending? <==> outcome.Deferred?)
    && (bucket.Dead? <==> status.Dead?) && (bucket.Failed? <==> status.Failed?)
  }

  /**
    With distinct names a settle writes exactly while the claim it executed stands, and files what it
    wrote; otherwise it changes no row and files nothing yet.
   */
  lemma {:induction false} SettleWritesIff(c: Config, states: seq<State>, steps: seq<Step>, k: nat)
    requires Execution(c, states, steps) && Distinct(c.workers) && k < |steps| && steps[k].Settle?
    ensures var p := steps[k].p; Holds(states[k], p) && p < |states[k + 1].passes|
    ensures var p, work := steps[k].p, WorkOf(states[k], steps[k].p);
      var row, row' := RowOf(states[k], work.id), RowOf(states[k + 1], work.id);
      var report, report' := states[k].passes[p].report, states[k + 1].passes[p].report;
      if work.ticket == |row.ends|
      then
        && row'.ends == row.ends + [Settled(steps[k].outcome, work.ticket)]
        && |report'| == |report| + 1 && report'[..|report|] == report && report'[|report|].id == work.id
        && Agree(report'[|report|].bucket, row'.status, steps[k].outcome)
      else states[k + 1].rows == states[k].rows && report' == report
  {
    Taken(c, states, steps, k);
    RunNamed(c, states, steps, k);
    assert NameTells(c, states[k], steps[k].p) && WorkFits(c, states[k], steps[k].p);
  }

  // ------------------------------------------------------------------
  // The alarm: a lost item, and what it means
  // ------------------------------------------------------------------

  /** The claim was taken from its pass, at or after its deadline. */
  predicate LeaseLost(row: Row, work: Work) {
    && work.ticket < |row.ends| && row.ends[work.ticket].Recovered?
    && work.deadline <= row.ends[work.ticket].at
  }

  /**
    An item is reported lost if and only if its claim was recovered, which was not before its deadline,
    and its row has not been voided or erased since; for then it is reported as that.
   */
  lemma {:induction false} LostIff(c: Config, states: seq<State>, steps: seq<Step>, k: nat)
    requires Execution(c, states, steps) && Distinct(c.workers) && k < |steps| && steps[k].Classify?
    ensures Holds(states[k], steps[k].p) && steps[k].p < |states[k + 1].passes|
    ensures var work, report := WorkOf(states[k], steps[k].p), states[k + 1].passes[steps[k].p].report;
      var row := RowOf(states[k], work.id);
      && report != [] && report[|report| - 1].id == work.id
      && (report[|report| - 1].bucket.Lost? <==>
            LeaseLost(row, work) && !row.status.Voided? && !row.status.Purged?)
      && (report[|report| - 1].bucket.VoidedMidflight? <==> row.status.Voided?)
      && (report[|report| - 1].bucket.PurgedMidflight? <==> row.status.Purged?)
  {
    Taken(c, states, steps, k);
    RunNamed(c, states, steps, k);
    var p := steps[k].p;
    assert NameTells(c, states[k], p) && WorkFits(c, states[k], p);
    var work := WorkOf(states[k], p);
    assert RowFits(c, RowOf(states[k], work.id));
    assert FinalEnd(RowOf(states[k], work.id), RowOf(states[k], work.id).ends[work.ticket]);
  }

  /** Two passes execute the same row at once only if the older claim was recovered, at or after its deadline. */
  lemma {:induction false} TwoHoldersMeanExpiry(c: Config, states: seq<State>, steps: seq<Step>, i: nat, p: nat, q: nat)
    requires Execution(c, states, steps) && Distinct(c.workers) && i <= |steps| && p != q
    requires Holds(states[i], p) && Holds(states[i], q) && WorkOf(states[i], p).id == WorkOf(states[i], q).id
    requires WorkOf(states[i], p).ticket <= WorkOf(states[i], q).ticket
    ensures LeaseLost(RowOf(states[i], WorkOf(states[i], p).id), WorkOf(states[i], p))
  {
    RunInv(c, states, steps, i);
    RunNamed(c, states, steps, i);
    var s := states[i];
    assert TicketsDiffer(s, p, q) && WorkFits(c, s, p) && WorkFits(c, s, q) && NameTells(c, s, p);
    var row, ticket := RowOf(s, WorkOf(s, p).id), WorkOf(s, p).ticket;
    assert RowFits(c, row) && FinalEnd(row, row.ends[ticket]);
    assert Final(row.ends[ticket]) ==> ticket == |row.ends| - 1;
  }

  // ------------------------------------------------------------------
  // When every lease outlives its execution
  // ------------------------------------------------------------------

  /** No living pass holds a row past its lease when that row is recovered. */
  ghost predicate LeasesOutlive(states: seq<State>, steps: seq<Step>)
    requires |states| == |steps| + 1
  {
    forall k: nat, p: nat :: k < |steps| && steps[k].Recover? && WorkOn(states[k], p, steps[k].id) ==>
      steps[k].now < WorkOf(states[k], p).deadline
  }

  /** The claim in hand stands, or its row was voided or erased. */
  predicate Safe(s: State, p: nat) {
    Holds(s, p) ==>
      var row, work := RowOf(s, WorkOf(s, p).id), WorkOf(s, p);
      && work.ticket <= |row.ends|
      && (work.ticket < |row.ends| ==> row.ends[work.ticket].Retired? || row.ends[work.ticket].Erased?)
  }

  /** A pass whose name the row bears holds its current claim, for an ended one is never claimed again. */
  lemma {:induction false} SafeOurs(c: Config, s: State, p: nat)
    requires Safe(s, p) && Holds(s, p)
    requires RowFits(c, RowOf(s, WorkOf(s, p).id)) && RowOf(s, WorkOf(s, p).id).status.Claimed?
    ensures WorkOf(s, p).ticket == |RowOf(s, WorkOf(s, p).id).ends|
  {
    var row, ticket := RowOf(s, WorkOf(s, p).id), WorkOf(s, p).ticket;
    assert ticket < |row.ends| ==> FinalEnd(row, row.ends[ticket]);
  }

  /** The end of a released claim that is a recovery is that of the step's own instant. */
  lemma RecoverTurns(c: Config, s: State, step: Step, id: Id)
    requires |s.passes| == |c.workers| && Enabled(s, step)
    ensures var row, row' := RowOf(s, id), RowOf(Apply(c, s, step), id);
      |row'.ends| > |row.ends| && row'.ends[|row.ends|].Recovered? ==>
        step.Recover? && step.id == id && Expired(row, step.now)
  {
  }

  lemma {:induction false} SafeStep(c: Config, s: State, step: Step, p: nat)
    requires Inv(c, s) && Enabled(s, step) && (forall r: nat :: Safe(s, r))
    requires step.Recover? ==> forall r: nat :: WorkOn(s, r, step.id) ==> step.now < WorkOf(s, r).deadline
    ensures Safe(Apply(c, s, step), p)
  {
    var s' := Apply(c, s, step);
    if Holds(s', p) {
      var id := WorkOf(s', p).id;
      StepTurns(c, s, step, id);
      WorkTurns(c, s, step, p);
      SettleTurns(c, s, step, id);
      RecoverTurns(c, s, step, id);
      assert Safe(s, p) && WorkFits(c, s, p);
      if step.Settle? && WorkOn(s, step.p, id) && RowOf(s, id).status.Claimed? {
        assert Safe(s, step.p) && TicketsDiffer(s, p, step.p) && RowFits(c, RowOf(s, id));
        SafeOurs(c, s, step.p);
      }
    }
  }

  lemma {:induction false} SafeResults(c: Config, s: State, step: Step, id: Id)
    requires |s.passes| == |c.workers| && Enabled(s, step) && OwnResults(RowOf(s, id)) && RowFits(c, RowOf(s, id))
    requires step.Settle? ==> Safe(s, step.p)
    ensures OwnResults(RowOf(Apply(c, s, step), id))
  {
    StepTurns(c, s, step, id);
    SettleTurns(c, s, step, id);
    if step.Settle? && WorkOn(s, step.p, id) && RowOf(s, id).status.Claimed? {
      SafeOurs(c, s, step.p);
    }
  }

  lemma {:induction false} RunSafe(c: Config, states: seq<State>, steps: seq<Step>, i: nat)
    requires Execution(c, states, steps) && LeasesOutlive(states, steps) && i <= |steps|
    ensures (forall p: nat :: Safe(states[i], p)) && (forall id: Id :: OwnResults(RowOf(states[i], id)))
  {
    if i > 0 {
      RunSafe(c, states, steps, i - 1);
      Taken(c, states, steps, i - 1);
      forall p: nat ensures Safe(states[i], p) { SafeStep(c, states[i - 1], steps[i - 1], p); }
      forall id: Id ensures OwnResults(RowOf(states[i], id)) {
        assert OwnResults(RowOf(states[i - 1], id)) && RowFits(c, RowOf(states[i - 1], id));
        if steps[i - 1].Settle? { assert Safe(states[i - 1], steps[i - 1].p); }
        SafeResults(c, states[i - 1], steps[i - 1], id);
      }
    }
  }

  /**
    If leases outlive executions then, whatever the passes are called, no two of them have the same
    row in hand, a result is written only for its own claim, and nothing is ever about to be lost.
   */
  lemma {:induction false} LeasesExclude(c: Config, states: seq<State>, steps: seq<Step>, i: nat)
    requires Execution(c, states, steps) && LeasesOutlive(states, steps) && i <= |steps|
    ensures forall p: nat, q: nat :: Holds(states[i], p) && Holds(states[i], q) && p != q ==>
              WorkOf(states[i], p).id != WorkOf(states[i], q).id
    ensures forall id: Id :: OwnResults(RowOf(states[i], id))
    ensures forall p: nat :: Holds(states[i], p) && states[i].passes[p].phase.Vanished? ==>
              !Why(RowOf(states[i], WorkOf(states[i], p).id)).Lost?
  {
    RunSafe(c, states, steps, i);
    RunInv(c, states, steps, i);
    var s := states[i];
    forall p: nat, q: nat | Holds(s, p) && Holds(s, q) && p != q && WorkOf(s, p).id == WorkOf(s, q).id
      ensures false
    {
      assert TicketsDiffer(s, p, q);
      OlderEnded(c, s, p, q);
      OlderEnded(c, s, q, p);
    }
    forall p: nat | Holds(s, p) && s.passes[p].phase.Vanished?
      ensures !Why(RowOf(s, WorkOf(s, p).id)).Lost?
    {
      assert Safe(s, p) && WorkFits(c, s, p);
      var row := RowOf(s, WorkOf(s, p).id);
      assert RowFits(c, row) && FinalEnd(row, row.ends[WorkOf(s, p).ticket]);
    }
  }

  lemma {:induction false} OlderEnded(c: Config, s: State, p: nat, q: nat)
    requires Inv(c, s) && Safe(s, p) && Holds(s, p) && Holds(s, q) && WorkOf(s, p).id == WorkOf(s, q).id && p != q
    ensures WorkOf(s, q).ticket <= WorkOf(s, p).ticket
  {
    assert TicketsDiffer(s, p, q) && WorkFits(c, s, p) && WorkFits(c, s, q);
    var row, ticket := RowOf(s, WorkOf(s, p).id), WorkOf(s, p).ticket;
    assert RowFits(c, row);
    assert ticket < |row.ends| ==> FinalEnd(row, row.ends[ticket]) && Final(row.ends[ticket]);
  }

  // ------------------------------------------------------------------
  // Every claim, attempt and item is accounted for
  // ------------------------------------------------------------------

  /** The step hands the row to a pass for execution. */
  predicate Wins(s: State, step: Step, id: Id) {
    && step.Claim? && step.p < |s.passes| && s.passes[step.p].phase.Draining? && s.passes[step.p].phase.todo != []
    && s.passes[step.p].phase.todo[0] == id && Due(RowOf(s, id), step.now)
  }

  ghost function Won(states: seq<State>, steps: seq<Step>, id: Id, i: nat): nat
    requires |states| == |steps| + 1 && i <= |steps|
  {
    if i == 0 then 0 else Won(states, steps, id, i - 1) + Bit(Wins(states[i - 1], steps[i - 1], id))
  }

  lemma ClaimedByWinning(c: Config, s: State, step: Step, id: Id)
    requires |s.passes| == |c.workers| && Enabled(s, step)
    ensures Wins(s, step, id) <==> !RowOf(s, id).status.Claimed? && RowOf(Apply(c, s, step), id).status.Claimed?
  {
  }

  lemma {:induction false} WinsTurns(c: Config, s: State, step: Step, id: Id)
    requires |s.passes| == |c.workers| && Enabled(s, step)
    ensures var row, row' := RowOf(s, id), RowOf(Apply(c, s, step), id);
      |row'.ends| + Bit(row'.status.Claimed?) == |row.ends| + Bit(row.status.Claimed?) + Bit(Wins(s, step, id))
  {
    StepTurns(c, s, step, id);
    ClaimedByWinning(c, s, step, id);
  }

  /**
    Each time a row was handed to a pass ended in exactly one way, or is still going on; its attempts
    are the ends that cost one since it was last revived, and never exceed the limit.
   */
  lemma {:induction false} EveryClaimAccounted(c: Config, states: seq<State>, steps: seq<Step>, id: Id, i: nat)
    requires Execution(c, states, steps) && i <= |steps|
    ensures var row := RowOf(states[i], id);
      && Won(states, steps, id, i) == |row.ends| + Bit(row.status.Claimed?)
      && row.revived <= |row.ends| && row.attempts == AttemptsSince(row.ends, row.revived)
      && row.attempts <= Limit(c) && (row.status.Dead? ==> row.attempts == Limit(c))
      && (forall j :: 0 <= j < |row.ends| && Final(row.ends[j]) ==> j == |row.ends| - 1 && !Live(row))
  {
    RunInv(c, states, steps, i);
    var row := RowOf(states[i], id);
    assert RowFits(c, row);
    forall j | 0 <= j < |row.ends| && Final(row.ends[j]) ensures j == |row.ends| - 1 && !Live(row) {
      assert FinalEnd(row, row.ends[j]);
    }
    if i > 0 {
      EveryClaimAccounted(c, states, steps, id, i - 1);
      Taken(c, states, steps, i - 1);
      WinsTurns(c, states[i - 1], steps[i - 1], id);
    }
  }

  /** What a pass has filed, has in hand and has still to do is its plan, in order: each item lands in one bucket. */
  lemma {:induction false} ReportIsPlan(c: Config, states: seq<State>, steps: seq<Step>, i: nat, p: nat)
    requires Execution(c, states, steps) && i <= |steps| && p < |c.workers|
    ensures p < |states[i].passes| && PlanKept(states[i].passes[p])
  {
    RunInv(c, states, steps, i);
  }

  predicate ReportsDelivered(s: State, p: nat, k: nat, id: Id) {
    p < |s.passes| && k < |s.passes[p].report| && s.passes[p].report[k] == Filed(id, Bucket.Delivered)
  }

  /** Delivered, or deleted. */
  predicate Gone(s: State, id: Id) {
    id in s.rows && (s.rows[id].status.Delivered? || s.rows[id].status.Purged?)
  }

  ghost predicate DeliveredOnce(s: State, id: Id) {
    && (forall p: nat, k: nat :: ReportsDelivered(s, p, k, id) ==> Gone(s, id))
    && (forall p: nat, k: nat, q: nat, l: nat :: ReportsDelivered(s, p, k, id) && ReportsDelivered(s, q, l, id) ==>
          p == q && k == l)
  }

  /** A report of a delivery is old, or of the settle that this step is. */
  lemma ReportTurns(c: Config, s: State, step: Step, p: nat, k: nat, id: Id)
    requires |s.passes| == |c.workers| && Enabled(s, step) && ReportsDelivered(Apply(c, s, step), p, k, id)
    ensures
      || ReportsDelivered(s, p, k, id)
      || (&& step.Settle? && step.p == p && k == |s.passes[p].report| && RowOf(s, id).status.Claimed?
          && RowOf(Apply(c, s, step), id).status.Delivered?)
  {
  }

  lemma GoneStays(c: Config, s: State, step: Step, id: Id)
    requires |s.passes| == |c.workers| && Enabled(s, step) && Gone(s, id)
    ensures Gone(Apply(c, s, step), id)
  {
  }

  lemma {:induction false} DeliveredStep(c: Config, s: State, step: Step, id: Id)
    requires |s.passes| == |c.workers| && Enabled(s, step) && DeliveredOnce(s, id)
    ensures DeliveredOnce(Apply(c, s, step), id)
  {
    var s' := Apply(c, s, step);
    forall p: nat, k: nat | ReportsDelivered(s', p, k, id) ensures Gone(s', id) {
      ReportTurns(c, s, step, p, k, id);
      if ReportsDelivered(s, p, k, id) { GoneStays(c, s, step, id); }
    }
    forall p: nat, k: nat, q: nat, l: nat | ReportsDelivered(s', p, k, id) && ReportsDelivered(s', q, l, id)
      ensures p == q && k == l
    {
      ReportTurns(c, s, step, p, k, id);
      ReportTurns(c, s, step, q, l, id);
    }
  }

  /** All passes together report a row delivered at most once, and then it is delivered for good. */
  lemma {:induction false} DeliveredReportedOnce(c: Config, states: seq<State>, steps: seq<Step>, i: nat, id: Id)
    requires Execution(c, states, steps) && i <= |steps|
    ensures DeliveredOnce(states[i], id)
  {
    if i > 0 {
      DeliveredReportedOnce(c, states, steps, i - 1, id);
      Taken(c, states, steps, i - 1);
      DeliveredStep(c, states[i - 1], steps[i - 1], id);
    }
  }

  /** A crash strands no row: once its lease has run out, any pass that begins can take it back. */
  lemma {:induction false} ClaimedCanBeRecovered(
    c: Config, states: seq<State>, steps: seq<Step>, i: nat, id: Id, p: nat)
    requires Execution(c, states, steps) && i <= |steps| && RowOf(states[i], id).status.Claimed?
    requires p < |states[i].passes| && states[i].passes[p].phase.Recovering?
    ensures RowOf(states[i], id).lease.Some?
    ensures forall now :: RowOf(states[i], id).lease.value <= now <==> Enabled(states[i], Recover(p, id, now))
  {
    RunInv(c, states, steps, i);
    assert RowFits(c, RowOf(states[i], id));
  }

  // ------------------------------------------------------------------
  // No row is executed before its time
  // ------------------------------------------------------------------

  /** The row waits for its send time or its retry. */
  predicate Waits(s: State, id: Id, until: Instant) {
    (RowOf(s, id).status.Pending? || RowOf(s, id).status.Failed?) && RowOf(s, id).nextRetry == Some(until)
  }

  lemma WaitsStep(c: Config, s: State, step: Step, id: Id, until: Instant)
    requires |s.passes| == |c.workers| && Enabled(s, step) && Waits(s, id, until)
    requires !Wins(s, step, id) && !(step.Retime? && step.id == id)
    ensures var s' := Apply(c, s, step); Waits(s', id, until) || Gone(s', id) || RowOf(s', id).status.Voided?
  {
  }

  lemma ClosedStep(c: Config, s: State, step: Step, id: Id)
    requires |s.passes| == |c.workers| && Enabled(s, step) && (Gone(s, id) || RowOf(s, id).status.Voided?)
    ensures Gone(Apply(c, s, step), id) || RowOf(Apply(c, s, step), id).status.Voided?
    ensures !Wins(s, step, id)
  {
  }

  /** Nobody has re-timed the row, or been handed it, in these steps. */
  ghost predicate Untouched(states: seq<State>, steps: seq<Step>, id: Id, i: nat, j: nat)
    requires |states| == |steps| + 1
  {
    forall k :: i <= k < j && k < |steps| ==> !Wins(states[k], steps[k], id) && !(steps[k].Retime? && steps[k].id == id)
  }

  lemma {:induction false} WaitsOn(
    c: Config, states: seq<State>, steps: seq<Step>, id: Id, i: nat, j: nat, until: Instant)
    requires Execution(c, states, steps) && i <= j <= |steps| && Waits(states[i], id, until)
    requires Untouched(states, steps, id, i, j)
    ensures Waits(states[j], id, until) || Gone(states[j], id) || RowOf(states[j], id).status.Voided?
  {
    if i < j {
      WaitsOn(c, states, steps, id, i, j - 1, until);
      Taken(c, states, steps, j - 1);
      if Waits(states[j - 1], id, until) {
        WaitsStep(c, states[j - 1], steps[j - 1], id, until);
      } else {
        ClosedStep(c, states[j - 1], steps[j - 1], id);
      }
    }
  }

  /** A row that waits is next handed out no sooner than its time, unless somebody re-times it. */
  lemma {:induction false} NotBeforeItsTime(
    c: Config, states: seq<State>, steps: seq<Step>, id: Id, i: nat, j: nat, until: Instant)
    requires Execution(c, states, steps) && i <= j < |steps| && Waits(states[i], id, until)
    requires Untouched(states, steps, id, i, j) && Wins(states[j], steps[j], id)
    ensures until <= steps[j].now
  {
    WaitsOn(c, states, steps, id, i, j, until);
  }

  /** The waits double from half a minute, up to an hour. */
  lemma {:induction false} BackoffDoubles(n: nat)
    requires n > 0
    ensures Backoff(1) == 30 * SECOND
    ensures Backoff(n + 1) == if Backoff(n) < 1800 * SECOND then 2 * Backoff(n) else 3600 * SECOND
  {
    assert Pow2(n) == 2 * Pow2(n - 1);
  }

  lemma FailedWaits(c: Config, s: State, step: Step, id: Id)
    requires |s.passes| == |c.workers| && Enabled(s, step) && step.Settle? && RowOf(s, id).status.Claimed?
    requires RowOf(Apply(c, s, step), id).status.Failed?
    ensures var s' := Apply(c, s, step); Waits(s', id, step.now + Backoff(RowOf(s', id).attempts))
  {
  }

  lemma {:induction false} AliveBelowLimit(c: Config, states: seq<State>, steps: seq<Step>, i: nat, id: Id)
    requires Execution(c, states, steps) && i <= |steps| && Live(RowOf(states[i], id))
    ensures RowOf(states[i], id).attempts < Limit(c)
  {
    RunInv(c, states, steps, i);
    assert RowFits(c, RowOf(states[i], id));
  }

  /** After a failure (step `k`) that leaves the row alive, its next execution waits out the backoff. */
  lemma {:induction false} RetryWaits(c: Config, states: seq<State>, steps: seq<Step>, id: Id, k: nat, j: nat)
    requires Execution(c, states, steps) && k < j < |steps|
    requires steps[k].Settle? && RowOf(states[k], id).status.Claimed? && RowOf(states[k + 1], id).status.Failed?
    requires Untouched(states, steps, id, k + 1, j) && Wins(states[j], steps[j], id)
    ensures RowOf(states[k + 1], id).attempts < Limit(c)
    ensures steps[k].now + Backoff(RowOf(states[k + 1], id).attempts) <= steps[j].now
  {
    assert Leads(c, states, steps, k);
    FailedWaits(c, states[k], steps[k], id);
    AliveBelowLimit(c, states, steps, k + 1, id);
    NotBeforeItsTime(c, states, steps, id, k + 1, j, steps[k].now + Backoff(RowOf(states[k + 1], id).attempts));
  }

  // ------------------------------------------------------------------
  // Two runs
  // ------------------------------------------------------------------

  ghost function LastOf(states: seq<State>): State
    requires states != []
  {
    states[|states| - 1]
  }

  lemma Extend(c: Config, states: seq<State>, steps: seq<Step>, step: Step, next: State)
    returns (states': seq<State>, steps': seq<Step>)
    requires Execution(c, states, steps) && |LastOf(states).passes| == |c.workers|
    requires Enabled(LastOf(states), step) && next == Apply(c, LastOf(states), step)
    ensures Execution(c, states', steps') && LastOf(states') == next
    ensures states' == states + [next] && steps' == steps + [step]
  {
    states', steps' := states + [next], steps + [step];
    forall i | 0 <= i < |steps'| ensures Leads(c, states', steps', i) {
      if i < |steps| {
        assert Leads(c, states, steps, i);
      }
    }
  }

  const LEASE := 300 * SECOND

  const IDLE := Pass(Recovering, [], [])

  /** Row 0 is `row`, passes `p` and `q` are these, and no other pass has begun. */
  ghost predicate Shows(c: Config, s: State, row: Row, p: nat, passP: Pass, q: nat, passQ: Pass) {
    && |s.passes| == |c.workers| && p < |c.workers| && q < |c.workers| && p != q
    && RowOf(s, 0) == row && s.passes[p] == passP && s.passes[q] == passQ
    && (forall r :: 0 <= r < |s.passes| && r != p && r != q ==> s.passes[r] == IDLE)
  }

  function Fresh(): Row { Row(Pending, None, None, None, 0, [], 0) }

  function HeldBy(worker: Worker, now: Instant, ends: seq<End>): Row {
    Row(Claimed, Some(worker), Some(now + LEASE), None, 0, ends, 0)
  }

  function Sending(ticket: nat, now: Instant): Pass {
    Pass(Executing(Work(0, ticket, now + LEASE), []), [0], [])
  }

  /** A pass plans and claims row 0. */
  lemma {:induction false} PlanAndClaim(
    c: Config, states: seq<State>, steps: seq<Step>, row: Row, p: nat, q: nat, passQ: Pass, now: Instant)
    returns (states': seq<State>, steps': seq<Step>)
    requires Execution(c, states, steps) && Shows(c, LastOf(states), row, p, IDLE, q, passQ)
    requires row == Row(Pending, None, None, None, 0, row.ends, 0)
    ensures Execution(c, states', steps')
    ensures Shows(c, LastOf(states'), HeldBy(c.workers[p], now, row.ends), p, Sending(|row.ends|, now), q, passQ)
  {
    var s := LastOf(states);
    var s1 := Apply(c, s, Plan(p, [0], now));
    states', steps' := Extend(c, states, steps, Plan(p, [0], now), s1);
    assert Shows(c, s1, row, p, Pass(Draining([0]), [0], []), q, passQ);
    var s2 := Apply(c, s1, Claim(p, now, LEASE));
    states', steps' := Extend(c, states', steps', Claim(p, now, LEASE), s2);
    assert [0][1..] == [];
  }

  lemma {:induction false} Begun(c: Config, p: nat, q: nat) returns (states: seq<State>, steps: seq<Step>)
    requires p < |c.workers| && q < |c.workers| && p != q
    ensures Execution(c, states, steps) && Shows(c, LastOf(states), Fresh(), p, IDLE, q, IDLE)
  {
    var s := Apply(c, Init(c), Enqueue(0, None));
    states, steps := Extend(c, [Init(c)], [], Enqueue(0, None), s);
  }

  /** Pass `q` recovers the row at the deadline of the claim that `p` still executes, and claims it. */
  lemma {:induction false} BothSending(c: Config, p: nat, q: nat) returns (states: seq<State>, steps: seq<Step>)
    requires p < |c.workers| && q < |c.workers| && p != q
    ensures Execution(c, states, steps)
    ensures Shows(
              c, LastOf(states), HeldBy(c.workers[q], LEASE, [Recovered(LEASE)]),
              p, Sending(0, 0), q, Sending(1, LEASE))
  {
    states, steps := Begun(c, p, q);
    states, steps := PlanAndClaim(c, states, steps, Fresh(), p, q, IDLE, 0);
    var s := Apply(c, LastOf(states), Recover(q, 0, LEASE));
    states, steps := Extend(c, states, steps, Recover(q, 0, LEASE), s);
    var row := Row(Pending, None, None, None, 0, [Recovered(LEASE)], 0);
    assert [] + [Recovered(LEASE)] == [Recovered(LEASE)];
    assert Shows(c, s, row, q, IDLE, p, Sending(0, 0));
    states, steps := PlanAndClaim(c, states, steps, row, q, p, Sending(0, 0), LEASE);
  }

  /** Two passes of one name: the older writes its result for the claim of the younger. */
  lemma {:induction false} SharedNameGoesStale(c: Config, p: nat, q: nat) returns (states: seq<State>, steps: seq<Step>)
    requires p < |c.workers| && q < |c.workers| && p != q && c.workers[p] == c.workers[q]
    ensures Execution(c, states, steps)
    ensures RowOf(LastOf(states), 0).ends == [Recovered(LEASE), Settled(Outcome.Delivered, 0)]
    ensures WorkOn(LastOf(states), q, 0) && WorkOf(LastOf(states), q).ticket == 1
  {
    states, steps := BothSending(c, p, q);
    var s := Apply(c, LastOf(states), Settle(p, LEASE, Outcome.Delivered));
    states, steps := Extend(c, states, steps, Settle(p, LEASE, Outcome.Delivered), s);
    assert [Recovered(LEASE)] + [Settled(Outcome.Delivered, 0)] == [Recovered(LEASE), Settled(Outcome.Delivered, 0)];
  }

  /** A pass settles a row that was voided under it. */
  lemma {:induction false} FindsVoided(
    c: Config, states: seq<State>, steps: seq<Step>, row: Row,
    p: nat, ticket: nat, at: Instant, q: nat, passQ: Pass)
    returns (states': seq<State>, steps': seq<Step>)
    requires Execution(c, states, steps) && Shows(c, LastOf(states), row, p, Sending(ticket, at), q, passQ)
    requires row.status.Voided?
    ensures Execution(c, states', steps') && states <= states'
    ensures Shows(c, LastOf(states'), row, p, Pass(Draining([]), [0], [Filed(0, VoidedMidflight)]), q, passQ)
  {
    var settle := Settle(p, LEASE, Outcome.Delivered);
    var s1 := Apply(c, LastOf(states), settle);
    states', steps' := Extend(c, states, steps, settle, s1);
    assert s1.passes[p] == Pass(Vanished(Work(0, ticket, at + LEASE), []), [0], []);
    var s2 := Apply(c, s1, Classify(p));
    states', steps' := Extend(c, states', steps', Classify(p), s2);
    assert [] + [Filed(0, VoidedMidflight)] == [Filed(0, VoidedMidflight)];
  }

  /**
    A lease that is outrun is not always reported lost, whatever the passes are called: two execute the
    row at once, the booking is cancelled, and both file it as voided.
   */
  lemma {:induction false} VoidHidesLoss(c: Config, p: nat, q: nat) returns (states: seq<State>, steps: seq<Step>)
    requires p < |c.workers| && q < |c.workers| && p != q
    ensures Execution(c, states, steps)
    ensures RowOf(LastOf(states), 0).ends == [Recovered(LEASE), Retired]
    ensures exists k: nat :: k < |states| && WorkOn(states[k], p, 0) && WorkOn(states[k], q, 0)
    ensures forall r, f :: 0 <= r < |LastOf(states).passes| && f in LastOf(states).passes[r].report ==>
              f == Filed(0, VoidedMidflight)
  {
    states, steps := BothSending(c, p, q);
    ghost var k := |states| - 1;
    assert WorkOn(states[k], p, 0) && WorkOn(states[k], q, 0);
    var s := Apply(c, LastOf(states), Void(0));
    ghost var both := states;
    states, steps := Extend(c, states, steps, Void(0), s);
    var row := Row(Voided, None, None, None, 0, [Recovered(LEASE), Retired], 0);
    assert [Recovered(LEASE)] + [Retired] == [Recovered(LEASE), Retired];
    var done := Pass(Draining([]), [0], [Filed(0, VoidedMidflight)]);
    states, steps := FindsVoided(c, states, steps, row, p, 0, 0, q, Sending(1, LEASE));
    states, steps := FindsVoided(c, states, steps, row, q, 1, LEASE, p, done);
  }
}
