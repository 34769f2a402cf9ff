/**
  The organic phase: every planned booking is read, posted and perhaps followed up by concurrent
  workers, and every intent has to end in exactly one category of the result.

  Workers interleave at the granularity of one locked update; the server's answers are arbitrary.
 */
module Organic {
  import opened Wrappers
  import opened Responses
  import opened TrafficPlan

  /** The offered starts, or nothing when the read broke. */
  function ReadOffer(r: Response): Option<seq<string>> {
    if IsOk(r) && r.body.Slots? then Some(r.body.starts) else None
  }

  predicate IsRescheduleCollision(r: Response) { !IsOk(r) && r.errorCode == COLLISION }

  // ------------------------------------------------------------------
  // The result
  // ------------------------------------------------------------------

  datatype BookedRef = BookedRef(
    bookingId: string, businessSlug: string, guestEmail: string, start: string, sentAtWall: real)

  datatype OrganicResult = OrganicResult(
    booked: seq<BookedRef>,
    slotsLatency: seq<real>, bookingLatency: seq<real>, cancelLatency: seq<real>, rescheduleLatency: seq<real>,
    tally: multiset<(nat, string)>,
    collisions: nat, noSlotsOffered: nat, slotsReadFailed: seq<PlannedBooking>,
    bookingRefused: multiset<string>, bookingUnreadable: seq<PlannedBooking>,
    followUpsAttempted: nat,
    cancelled: nat, cancelRefused: multiset<string>,
    rescheduled: nat, rescheduleCollisions: nat, rescheduleRefused: multiset<string>,
    rescheduleNoTarget: nat, rescheduleSlotsReadFailed: seq<PlannedBooking>)

  const EMPTY := OrganicResult(
    [], [], [], [], [], multiset{}, 0, 0, [], multiset{}, [], 0, 0, multiset{}, 0, 0, multiset{}, 0, [])

  function CreateTotal(r: OrganicResult): nat {
    |r.booked| + r.collisions + r.noSlotsOffered + |r.slotsReadFailed| + |r.bookingRefused| + |r.bookingUnreadable|
  }

  function FollowUpTotal(r: OrganicResult): nat {
    r.cancelled + |r.cancelRefused| + r.rescheduled + r.rescheduleCollisions + |r.rescheduleRefused|
    + r.rescheduleNoTarget + |r.rescheduleSlotsReadFailed|
  }

  predicate HasUnexpected(r: OrganicResult) {
    || |r.slotsReadFailed| > 0 || |r.bookingRefused| > 0 || |r.bookingUnreadable| > 0
    || |r.cancelRefused| > 0 || |r.rescheduleRefused| > 0 || |r.rescheduleSlotsReadFailed| > 0
  }

  /** Control C13. */
  predicate JudgeOrganicAccounting(r: OrganicResult, planned: nat) {
    planned > 0 && CreateTotal(r) == planned && FollowUpTotal(r) == r.followUpsAttempted && !HasUnexpected(r)
  }

  // ------------------------------------------------------------------
  // The work of one intent
  // ------------------------------------------------------------------

  datatype Outcome =
    | Booked | Collision | NoSlotsOffered | SlotsReadFailed | BookingRefused | BookingUnreadable
    | Cancelled | CancelRefused
    | Rescheduled | RescheduleCollision | RescheduleRefused | NoTarget | RescheduleSlotsReadFailed

  /** What a task is for: a planned booking, or a follow-up on one that was booked. */
  datatype Goal =
    | Create(item: PlannedBooking)
    | CancelIt(item: PlannedBooking, ref: BookedRef)
    | MoveIt(item: PlannedBooking, ref: BookedRef)

  /** Where its worker is: a response is first added to a latency, then to the tally, then acted on. */
  datatype Pc = Waiting | ReadTimed | ReadTallied | PostTimed | PostTallied | Ended(outcome: Outcome)

  /** A task with every response it has got so far. */
  datatype Task = Task(goal: Goal, pc: Pc, log: seq<Response>)

  function Last(log: seq<Response>): Response
    requires log != []
  {
    log[|log| - 1]
  }

  function Tallied(r: OrganicResult, response: Response): OrganicResult {
    r.(tally := r.tally + multiset{TallyKey(response)})
  }

  /** Why no request follows the read of the offer, if none does. */
  function AfterRead(goal: Goal, response: Response): Option<Outcome> {
    match ReadOffer(response)
    case None => Some(if goal.Create? then SlotsReadFailed else RescheduleSlotsReadFailed)
    case Some(starts) =>
      if goal.Create? then if starts == [] then Some(NoSlotsOffered) else None
      else if goal.MoveIt? then
        if forall i :: 0 <= i < |starts| ==> starts[i] == goal.ref.start then Some(NoTarget) else None
      else None
  }

  function AfterPost(goal: Goal, response: Response): Outcome {
    match goal
    case Create(_) =>
      if response.errorCode == COLLISION then Collision
      else if !IsOk(response) then BookingRefused
      else if !response.body.Booking? then BookingUnreadable
      else Booked
    case CancelIt(_, _) => if IsOk(response) then Cancelled else CancelRefused
    case MoveIt(_, _) =>
      if IsOk(response) then Rescheduled
      else if IsRescheduleCollision(response) then RescheduleCollision
      else RescheduleRefused
  }

  /** The locked update that files `item` under its outcome. */
  function Filed(r: OrganicResult, outcome: Outcome, item: PlannedBooking, response: Response): OrganicResult {
    match outcome
    case Booked =>
      (match response.body
       case Booking(id, start) =>
         r.(booked := r.booked + [BookedRef(id, item.slug, item.guestEmail, start, response.sentAt)])
       case _ => r)
    case Collision => r.(collisions := r.collisions + 1)
    case NoSlotsOffered => r.(noSlotsOffered := r.noSlotsOffered + 1)
    case SlotsReadFailed => r.(slotsReadFailed := r.slotsReadFailed + [item])
    case BookingRefused => r.(bookingRefused := r.bookingRefused + multiset{RefusalKey(response)})
    case BookingUnreadable => r.(bookingUnreadable := r.bookingUnreadable + [item])
    case Cancelled => r.(cancelled := r.cancelled + 1)
    case CancelRefused => r.(cancelRefused := r.cancelRefused + multiset{RefusalKey(response)})
    case Rescheduled => r.(rescheduled := r.rescheduled + 1)
    case RescheduleCollision => r.(rescheduleCollisions := r.rescheduleCollisions + 1)
    case RescheduleRefused => r.(rescheduleRefused := r.rescheduleRefused + multiset{RefusalKey(response)})
    case NoTarget => r.(rescheduleNoTarget := r.rescheduleNoTarget + 1)
    case RescheduleSlotsReadFailed => r.(rescheduleSlotsReadFailed := r.rescheduleSlotsReadFailed + [item])
  }

  function Timed(r: OrganicResult, goal: Goal, posted: bool, elapsed: real): OrganicResult {
    if !posted then r.(slotsLatency := r.slotsLatency + [elapsed])
    else
      match goal
      case Create(_) => r.(bookingLatency := r.bookingLatency + [elapsed])
      case CancelIt(_, _) => r.(cancelLatency := r.cancelLatency + [elapsed])
      case MoveIt(_, _) => r.(rescheduleLatency := r.rescheduleLatency + [elapsed])
  }

  /** A request goes out, and its answer is timed. */
  function Sent(task: Task, r: OrganicResult, pc: Pc, response: Response): (Task, OrganicResult) {
    (Task(task.goal, pc, task.log + [response]), Timed(r, task.goal, pc.PostTimed?, response.elapsed))
  }

  function Closed(task: Task, r: OrganicResult, outcome: Outcome): (Task, OrganicResult)
    requires task.log != []
  {
    (task.(pc := Ended(outcome)), Filed(r, outcome, task.goal.item, Last(task.log)))
  }

  /** One step of the task's worker; `response` is what the server answers if the step sends a request. */
  function Advance(task: Task, r: OrganicResult, response: Response): (Task, OrganicResult)
    requires Explained(task)
  {
    match task.pc
    case Waiting => Sent(task, r, if task.goal.CancelIt? then PostTimed else ReadTimed, response)
    case ReadTimed => (task.(pc := ReadTallied), Tallied(r, Last(task.log)))
    case ReadTallied =>
      (match AfterRead(task.goal, Last(task.log))
       case Some(outcome) => Closed(task, r, outcome)
       case None => Sent(task, r, PostTimed, response))
    case PostTimed => (task.(pc := PostTallied), Tallied(r, Last(task.log)))
    case PostTallied => Closed(task, r, AfterPost(task.goal, Last(task.log)))
    case Ended(_) => (task, r)
  }

  /** The log fits the place, and an outcome is the one the responses call for. */
  predicate Explained(task: Task) {
    match task.pc
    case Waiting => task.log == []
    case ReadTimed => |task.log| == 1 && !task.goal.CancelIt?
    case ReadTallied => |task.log| == 1 && !task.goal.CancelIt?
    case PostTimed => Posted(task)
    case PostTallied => Posted(task)
    case Ended(outcome) =>
      || (|task.log| == 1 && !task.goal.CancelIt? && AfterRead(task.goal, task.log[0]) == Some(outcome))
      || (Posted(task) && outcome == AfterPost(task.goal, Last(task.log)))
  }

  /** The task's last response answers its post: after a good read, except to cancel. */
  predicate Posted(task: Task)
    ensures Posted(task) ==> task.log != []
  {
    if task.goal.CancelIt? then |task.log| == 1
    else |task.log| == 2 && AfterRead(task.goal, task.log[0]) == None
  }

  // ------------------------------------------------------------------
  // The phase
  // ------------------------------------------------------------------

  datatype State = State(tasks: seq<Task>, result: OrganicResult, followedUp: bool)

  datatype Step = Work(i: nat, response: Response) | StartFollowUps

  function Creates(plan: seq<PlannedBooking>): (tasks: seq<Task>)
    ensures |tasks| == |plan| && forall i :: 0 <= i < |plan| ==> tasks[i] == Task(Create(plan[i]), Waiting, [])
  {
    seq(|plan|, i requires 0 <= i < |plan| => Task(Create(plan[i]), Waiting, []))
  }

  function Begin(plan: seq<PlannedBooking>): State { State(Creates(plan), EMPTY, false) }

  /** The booking of an address: the last one filed under it. */
  function ByEmail(booked: seq<BookedRef>, email: string): Option<BookedRef> {
    if booked == [] then None
    else if booked[|booked| - 1].guestEmail == email then Some(booked[|booked| - 1])
    else ByEmail(booked[..|booked| - 1], email)
  }

  function FollowUpGoal(item: PlannedBooking, booked: seq<BookedRef>): Option<Goal> {
    match ByEmail(booked, item.guestEmail)
    case None => None
    case Some(ref) =>
      match item.followUp
      case NoFollowUp => None
      case Cancel => Some(CancelIt(item, ref))
      case Reschedule => Some(MoveIt(item, ref))
  }

  /** The follow-ups the plan calls for, of what was booked. */
  function FollowUps(plan: seq<PlannedBooking>, booked: seq<BookedRef>): seq<Task> {
    if plan == [] then []
    else
      var rest := FollowUps(plan[..|plan| - 1], booked);
      match FollowUpGoal(plan[|plan| - 1], booked)
      case None => rest
      case Some(goal) => rest + [Task(goal, Waiting, [])]
  }

  predicate AllEnded(tasks: seq<Task>) {
    forall i :: 0 <= i < |tasks| ==> tasks[i].pc.Ended?
  }

  /** `Explained` is no restriction: it holds of every task in every run, see `RunInv` and `NeverStuck`. */
  predicate Enabled(s: State, step: Step) {
    match step
    case Work(i, _) => i < |s.tasks| && !s.tasks[i].pc.Ended? && Explained(s.tasks[i])
    case StartFollowUps => !s.followedUp && AllEnded(s.tasks)
  }

  function Next(plan: seq<PlannedBooking>, s: State, step: Step): State
    requires Enabled(s, step)
  {
    match step
    case Work(i, response) =>
      var (task, result) := Advance(s.tasks[i], s.result, response);
      State(s.tasks[i := task], result, s.followedUp)
    case StartFollowUps =>
      var more := FollowUps(plan, s.result.booked);
      State(s.tasks + more, s.result.(followUpsAttempted := |more|), true)
  }

  /** Where `steps` lead, if each can be taken in its turn. */
  function Run(plan: seq<PlannedBooking>, steps: seq<Step>): Option<State> {
    if steps == [] then Some(Begin(plan))
    else
      var step := steps[|steps| - 1];
      match Run(plan, steps[..|steps| - 1])
      case None => None
      case Some(s) => if Enabled(s, step) then Some(Next(plan, s, step)) else None
  }

  predicate Finished(s: State) { s.followedUp && AllEnded(s.tasks) }

  // ------------------------------------------------------------------
  // What is conserved
  // ------------------------------------------------------------------

  /** A number kept in the result. */
  datatype Measure =
    | Ends(outcome: Outcome) | Reads | Bookings | Cancels | Moves | InTally(key: (nat, string)) | TallyTotal

  /** The number as the result keeps it. */
  function Kept(r: OrganicResult, m: Measure): nat {
    match m
    case Ends(Booked) => |r.booked|
    case Ends(Collision) => r.collisions
    case Ends(NoSlotsOffered) => r.noSlotsOffered
    case Ends(SlotsReadFailed) => |r.slotsReadFailed|
    case Ends(BookingRefused) => |r.bookingRefused|
    case Ends(BookingUnreadable) => |r.bookingUnreadable|
    case Ends(Cancelled) => r.cancelled
    case Ends(CancelRefused) => |r.cancelRefused|
    case Ends(Rescheduled) => r.rescheduled
    case Ends(RescheduleCollision) => r.rescheduleCollisions
    case Ends(RescheduleRefused) => |r.rescheduleRefused|
    case Ends(NoTarget) => r.rescheduleNoTarget
    case Ends(RescheduleSlotsReadFailed) => |r.rescheduleSlotsReadFailed|
    case Reads => |r.slotsLatency|
    case Bookings => |r.bookingLatency|
    case Cancels => |r.cancelLatency|
    case Moves => |r.rescheduleLatency|
    case InTally(key) => r.tally[key]
    case TallyTotal => |r.tally|
  }

  /** The responses already in the tally. */
  function InTallyLog(task: Task): seq<Response> {
    if (task.pc.ReadTimed? || task.pc.PostTimed?) && task.log != [] then task.log[..|task.log| - 1] else task.log
  }

  function KeyCount(log: seq<Response>, key: (nat, string)): nat {
    if log == [] then 0 else KeyCount(log[..|log| - 1], key) + Bit(TallyKey(log[|log| - 1]) == key)
  }

  /** What one task accounts for of the number. */
  function Due(task: Task, m: Measure): nat {
    var posts := if task.goal.CancelIt? then |task.log| else if |task.log| > 1 then |task.log| - 1 else 0;
    match m
    case Ends(outcome) => Bit(task.pc == Ended(outcome))
    case Reads => |task.log| - posts
    case Bookings => if task.goal.Create? then posts else 0
    case Cancels => if task.goal.CancelIt? then posts else 0
    case Moves => if task.goal.MoveIt? then posts else 0
    case InTally(key) => KeyCount(InTallyLog(task), key)
    case TallyTotal => |InTallyLog(task)|
  }

  function Sum(tasks: seq<Task>, m: Measure): nat {
    if tasks == [] then 0 else Sum(tasks[..|tasks| - 1], m) + Due(tasks[|tasks| - 1], m)
  }

  // ------------------------------------------------------------------
  // Every step conserves every number
  // ------------------------------------------------------------------

  lemma KeyCountSnoc(log: seq<Response>, response: Response, key: (nat, string))
    ensures KeyCount(log + [response], key) == KeyCount(log, key) + Bit(TallyKey(response) == key)
  {
    assert (log + [response])[..|log + [response]| - 1] == log;
  }

  /** The latency a response belongs to. */
  function LatencyOf(goal: Goal, posted: bool): Measure {
    if !posted then Reads else if goal.Create? then Bookings else if goal.CancelIt? then Cancels else Moves
  }

  lemma TimedKeeps(r: OrganicResult, goal: Goal, posted: bool, elapsed: real, m: Measure)
    ensures Kept(Timed(r, goal, posted, elapsed), m) == Kept(r, m) + Bit(m == LatencyOf(goal, posted))
  {
  }

  /** The request a task sends next from `pc`. */
  ghost predicate Sends(task: Task, pc: Pc) {
    && (task.pc.Waiting? || task.pc.ReadTallied?)
    && if task.log == [] then pc == (if task.goal.CancelIt? then PostTimed else ReadTimed)
       else |task.log| == 1 && !task.goal.CancelIt? && pc == PostTimed
  }

  lemma SentDue(task: Task, pc: Pc, response: Response, m: Measure)
    requires Sends(task, pc)
    ensures Due(Task(task.goal, pc, task.log + [response]), m) == Due(task, m)
        + Bit(m == LatencyOf(task.goal, pc.PostTimed?))
  {
    assert (task.log + [response])[..|task.log|] == task.log;
  }

  lemma SentKeeps(task: Task, r: OrganicResult, pc: Pc, response: Response, m: Measure)
    requires Sends(task, pc)
    ensures var (task', r') := Sent(task, r, pc, response);
      Kept(r', m) + Due(task, m) == Kept(r, m) + Due(task', m)
  {
    TimedKeeps(r, task.goal, pc.PostTimed?, response.elapsed, m);
    SentDue(task, pc, response, m);
  }

  lemma TalliedKeeps(task: Task, r: OrganicResult, pc: Pc, m: Measure)
    requires task.log != []
    requires (task.pc.ReadTimed? && pc == ReadTallied) || (task.pc.PostTimed? && pc == PostTallied)
    ensures Kept(Tallied(r, Last(task.log)), m) + Due(task, m) == Kept(r, m) + Due(task.(pc := pc), m)
  {
  }

  predicate IsCreateOutcome(o: Outcome) {
    o.Booked? || o.Collision? || o.NoSlotsOffered? || o.SlotsReadFailed? || o.BookingRefused? || o.BookingUnreadable?
  }

  lemma FiledBookedKeeps(r: OrganicResult, item: PlannedBooking, response: Response, m: Measure)
    requires response.body.Booking?
    ensures Kept(Filed(r, Booked, item, response), m) == Kept(r, m) + Bit(m == Ends(Booked))
  {
  }

  lemma FiledCreateKeeps(r: OrganicResult, outcome: Outcome, item: PlannedBooking, response: Response, m: Measure)
    requires IsCreateOutcome(outcome) && !outcome.Booked?
    ensures Kept(Filed(r, outcome, item, response), m) == Kept(r, m) + Bit(m == Ends(outcome))
  {
  }

  lemma FiledFollowUpKeeps(r: OrganicResult, outcome: Outcome, item: PlannedBooking, response: Response, m: Measure)
    requires !IsCreateOutcome(outcome)
    ensures Kept(Filed(r, outcome, item, response), m) == Kept(r, m) + Bit(m == Ends(outcome))
  {
  }

  lemma FiledKeeps(r: OrganicResult, outcome: Outcome, item: PlannedBooking, response: Response, m: Measure)
    requires outcome == Booked ==> response.body.Booking?
    ensures Kept(Filed(r, outcome, item, response), m) == Kept(r, m) + Bit(m == Ends(outcome))
  {
    if outcome.Booked? {
      FiledBookedKeeps(r, item, response, m);
    } else if IsCreateOutcome(outcome) {
      FiledCreateKeeps(r, outcome, item, response, m);
    } else {
      FiledFollowUpKeeps(r, outcome, item, response, m);
    }
  }

  lemma ClosedDue(task: Task, outcome: Outcome, m: Measure)
    requires task.pc.ReadTallied? || task.pc.PostTallied?
    ensures Due(task.(pc := Ended(outcome)), m) == Due(task, m) + Bit(m == Ends(outcome))
  {
  }

  lemma {:induction false} ClosedKeeps(task: Task, r: OrganicResult, outcome: Outcome, m: Measure)
    requires task.log != [] && (task.pc.ReadTallied? || task.pc.PostTallied?)
    requires outcome == Booked ==> Last(task.log).body.Booking?
    ensures var (task', r') := Closed(task, r, outcome);
      Kept(r', m) + Due(task, m) == Kept(r, m) + Due(task', m)
  {
    FiledKeeps(r, outcome, task.goal.item, Last(task.log), m);
    ClosedDue(task, outcome, m);
  }

  lemma {:induction false} AdvanceKeeps(task: Task, r: OrganicResult, response: Response, m: Measure)
    requires Explained(task) && !task.pc.Ended?
    ensures var (task', r') := Advance(task, r, response);
      && Kept(r', m) + Due(task, m) == Kept(r, m) + Due(task', m)
      && Explained(task') && task'.goal == task.goal
  {
    match task.pc
    case Waiting => SentKeeps(task, r, if task.goal.CancelIt? then PostTimed else ReadTimed, response, m);
    case ReadTimed => TalliedKeeps(task, r, ReadTallied, m);
    case ReadTallied =>
      var next := AfterRead(task.goal, Last(task.log));
      if next.Some? {
        ClosedKeeps(task, r, next.value, m);
      } else {
        SentKeeps(task, r, PostTimed, response, m);
      }
    case PostTimed => TalliedKeeps(task, r, PostTallied, m);
    case PostTallied => ClosedKeeps(task, r, AfterPost(task.goal, Last(task.log)), m);
  }

  lemma {:induction false} SumUpdate(tasks: seq<Task>, i: nat, task: Task, m: Measure)
    requires i < |tasks|
    ensures Sum(tasks[i := task], m) + Due(tasks[i], m) == Sum(tasks, m) + Due(task, m)
  {
    var n := |tasks| - 1;
    if i < n {
      SumUpdate(tasks[..n], i, task, m);
      assert tasks[i := task][..n] == tasks[..n][i := task];
    } else {
      assert tasks[i := task][..n] == tasks[..n];
    }
  }

  lemma {:induction false} SumConcat(a: seq<Task>, b: seq<Task>, m: Measure)
    ensures Sum(a + b, m) == Sum(a, m) + Sum(b, m)
  {
    if b == [] {
      assert a + b == a;
    } else {
      SumConcat(a, b[..|b| - 1], m);
      assert (a + b)[..|a + b| - 1] == a + b[..|b| - 1];
    }
  }

  ghost predicate Fresh(tasks: seq<Task>) {
    forall i :: 0 <= i < |tasks| ==> tasks[i].pc == Waiting && tasks[i].log == []
  }

  lemma {:induction false} FreshSum(tasks: seq<Task>, m: Measure)
    requires Fresh(tasks)
    ensures Sum(tasks, m) == 0
  {
    if tasks != [] {
      FreshSum(tasks[..|tasks| - 1], m);
    }
  }

  lemma {:induction false} FollowUpsFresh(plan: seq<PlannedBooking>, booked: seq<BookedRef>)
    ensures Fresh(FollowUps(plan, booked))
    ensures forall i :: 0 <= i < |FollowUps(plan, booked)| ==> !FollowUps(plan, booked)[i].goal.Create?
  {
    if plan != [] {
      FollowUpsFresh(plan[..|plan| - 1], booked);
    }
  }

  // ------------------------------------------------------------------
  // The invariant
  // ------------------------------------------------------------------

  /** Every number of the result is the sum of what the tasks account for. */
  ghost predicate Balanced(s: State) {
    forall m: Measure :: Kept(s.result, m) == Sum(s.tasks, m)
  }

  /** The first tasks are the plan's, the rest are follow-ups, which exist once all of the plan ended. */
  ghost predicate Shaped(plan: seq<PlannedBooking>, s: State) {
    && |s.tasks| >= |plan|
    && (forall i :: 0 <= i < |plan| ==> s.tasks[i].goal == Create(plan[i]))
    && (forall i :: |plan| <= i < |s.tasks| ==> !s.tasks[i].goal.Create?)
    && (forall i :: 0 <= i < |s.tasks| ==> Explained(s.tasks[i]))
    && s.result.followUpsAttempted == |s.tasks| - |plan|
    && (if s.followedUp then AllEnded(s.tasks[..|plan|]) else |s.tasks| == |plan|)
  }

  lemma WorkBalances(plan: seq<PlannedBooking>, s: State, i: nat, response: Response)
    requires Balanced(s) && Enabled(s, Work(i, response))
    ensures Balanced(Next(plan, s, Work(i, response)))
  {
    var s' := Next(plan, s, Work(i, response));
    forall m: Measure ensures Kept(s'.result, m) == Sum(s'.tasks, m) {
      AdvanceKeeps(s.tasks[i], s.result, response, m);
      SumUpdate(s.tasks, i, s'.tasks[i], m);
    }
  }

  lemma StartBalances(plan: seq<PlannedBooking>, s: State)
    requires Balanced(s) && Enabled(s, StartFollowUps)
    ensures Balanced(Next(plan, s, StartFollowUps))
  {
    var more, s' := FollowUps(plan, s.result.booked), Next(plan, s, StartFollowUps);
    FollowUpsFresh(plan, s.result.booked);
    forall m: Measure ensures Kept(s'.result, m) == Sum(s'.tasks, m) {
      assert Kept(s'.result, m) == Kept(s.result, m);
      SumConcat(s.tasks, more, m);
      FreshSum(more, m);
    }
  }

  lemma FiledAttempted(r: OrganicResult, task: Task, response: Response)
    requires Explained(task)
    ensures Advance(task, r, response).1.followUpsAttempted == r.followUpsAttempted
  {
  }

  lemma {:induction false} WorkShapes(plan: seq<PlannedBooking>, s: State, i: nat, response: Response)
    requires Shaped(plan, s) && Enabled(s, Work(i, response))
    ensures Shaped(plan, Next(plan, s, Work(i, response)))
  {
    AdvanceKeeps(s.tasks[i], s.result, response, Reads);
    FiledAttempted(s.result, s.tasks[i], response);
  }

  lemma {:induction false} StartShapes(plan: seq<PlannedBooking>, s: State)
    requires Shaped(plan, s) && Enabled(s, StartFollowUps)
    ensures Shaped(plan, Next(plan, s, StartFollowUps))
  {
    FollowUpsFresh(plan, s.result.booked);
    assert (s.tasks + FollowUps(plan, s.result.booked))[..|plan|] == s.tasks;
  }

  /** In every interleaving every number of the result is accounted for by the tasks. */
  lemma {:induction false} RunInv(plan: seq<PlannedBooking>, steps: seq<Step>)
    ensures Run(plan, steps).Some? ==> Balanced(Run(plan, steps).value) && Shaped(plan, Run(plan, steps).value)
  {
    if steps == [] {
      forall m: Measure ensures Kept(EMPTY, m) == Sum(Creates(plan), m) {
        FreshSum(Creates(plan), m);
      }
    } else if Run(plan, steps).Some? {
      var s, step := Run(plan, steps[..|steps| - 1]).value, steps[|steps| - 1];
      RunInv(plan, steps[..|steps| - 1]);
      match step
      case Work(i, response) =>
        WorkBalances(plan, s, i, response);
        WorkShapes(plan, s, i, response);
      case StartFollowUps =>
        StartBalances(plan, s);
        StartShapes(plan, s);
    }
  }

  // ------------------------------------------------------------------
  // The categories add up
  // ------------------------------------------------------------------

  /** No intent can be stuck: each that has not ended can take a step, and once all have, the follow-ups can start. */
  lemma {:induction false} NeverStuck(plan: seq<PlannedBooking>, steps: seq<Step>, s: State, response: Response)
    requires Run(plan, steps) == Some(s) && !Finished(s)
    ensures forall i :: 0 <= i < |s.tasks| && !s.tasks[i].pc.Ended? ==> Enabled(s, Work(i, response))
    ensures AllEnded(s.tasks) ==> Enabled(s, StartFollowUps)
  {
    RunInv(plan, steps);
  }

  /** The fields of the result, each as the sum of what the tasks account for. */
  ghost predicate CreateFields(r: OrganicResult, tasks: seq<Task>) {
    && |r.booked| == Sum(tasks, Ends(Booked))
    && r.collisions == Sum(tasks, Ends(Collision))
    && r.noSlotsOffered == Sum(tasks, Ends(NoSlotsOffered))
    && |r.slotsReadFailed| == Sum(tasks, Ends(SlotsReadFailed))
    && |r.bookingRefused| == Sum(tasks, Ends(BookingRefused))
    && |r.bookingUnreadable| == Sum(tasks, Ends(BookingUnreadable))
  }

  ghost predicate FollowUpFields(r: OrganicResult, tasks: seq<Task>) {
    && r.cancelled == Sum(tasks, Ends(Cancelled))
    && |r.cancelRefused| == Sum(tasks, Ends(CancelRefused))
    && r.rescheduled == Sum(tasks, Ends(Rescheduled))
    && r.rescheduleCollisions == Sum(tasks, Ends(RescheduleCollision))
    && |r.rescheduleRefused| == Sum(tasks, Ends(RescheduleRefused))
    && r.rescheduleNoTarget == Sum(tasks, Ends(NoTarget))
    && |r.rescheduleSlotsReadFailed| == Sum(tasks, Ends(RescheduleSlotsReadFailed))
  }

  ghost predicate InstrumentFields(r: OrganicResult, tasks: seq<Task>) {
    && |r.slotsLatency| == Sum(tasks, Reads)
    && |r.bookingLatency| == Sum(tasks, Bookings)
    && |r.cancelLatency| == Sum(tasks, Cancels)
    && |r.rescheduleLatency| == Sum(tasks, Moves)
    && |r.tally| == Sum(tasks, TallyTotal)
  }

  lemma CreateFieldsHold(s: State)
    requires Balanced(s)
    ensures CreateFields(s.result, s.tasks)
  {
    var r := s.result;
    assert |r.booked| == Kept(r, Ends(Booked)) && r.collisions == Kept(r, Ends(Collision));
    assert r.noSlotsOffered == Kept(r, Ends(NoSlotsOffered)) && |r.slotsReadFailed| == Kept(r, Ends(SlotsReadFailed));
    assert |r.bookingRefused| == Kept(r, Ends(BookingRefused));
    assert |r.bookingUnreadable| == Kept(r, Ends(BookingUnreadable));
  }

  lemma FollowUpFieldsHold(s: State)
    requires Balanced(s)
    ensures FollowUpFields(s.result, s.tasks)
  {
    var r := s.result;
    assert r.cancelled == Kept(r, Ends(Cancelled)) && |r.cancelRefused| == Kept(r, Ends(CancelRefused));
    assert r.rescheduled == Kept(r, Ends(Rescheduled)) && r.rescheduleCollisions == Kept(r, Ends(RescheduleCollision));
    assert |r.rescheduleRefused| == Kept(r, Ends(RescheduleRefused)) && r.rescheduleNoTarget == Kept(r, Ends(NoTarget));
    assert |r.rescheduleSlotsReadFailed| == Kept(r, Ends(RescheduleSlotsReadFailed));
  }

  lemma InstrumentFieldsHold(s: State)
    requires Balanced(s)
    ensures InstrumentFields(s.result, s.tasks)
  {
    var r := s.result;
    assert |r.slotsLatency| == Kept(r, Reads) && |r.bookingLatency| == Kept(r, Bookings);
    assert |r.cancelLatency| == Kept(r, Cancels) && |r.rescheduleLatency| == Kept(r, Moves);
    assert |r.tally| == Kept(r, TallyTotal);
  }

  /** What every run leaves, without the quantifier over all numbers. */
  lemma {:induction false} FieldsOfRun(plan: seq<PlannedBooking>, steps: seq<Step>, s: State)
    requires Run(plan, steps) == Some(s)
    ensures CreateFields(s.result, s.tasks) && FollowUpFields(s.result, s.tasks) && InstrumentFields(s.result, s.tasks)
    ensures Shaped(plan, s)
  {
    RunInv(plan, steps);
    CreateFieldsHold(s);
    FollowUpFieldsHold(s);
    InstrumentFieldsHold(s);
  }

  function EndedCreates(tasks: seq<Task>): nat {
    if tasks == [] then 0
    else EndedCreates(tasks[..|tasks| - 1]) + Bit(tasks[|tasks| - 1].goal.Create? && tasks[|tasks| - 1].pc.Ended?)
  }

  function EndedFollowUps(tasks: seq<Task>): nat {
    if tasks == [] then 0
    else EndedFollowUps(tasks[..|tasks| - 1]) + Bit(!tasks[|tasks| - 1].goal.Create? && tasks[|tasks| - 1].pc.Ended?)
  }

  ghost predicate AllExplained(tasks: seq<Task>) {
    forall i :: 0 <= i < |tasks| ==> Explained(tasks[i])
  }

  lemma OutcomeFitsGoal(task: Task)
    requires Explained(task) && task.pc.Ended?
    ensures IsCreateOutcome(task.pc.outcome) <==> task.goal.Create?
  {
  }

  lemma {:induction false} CreateSums(tasks: seq<Task>)
    requires AllExplained(tasks)
    ensures Sum(tasks, Ends(Booked)) + Sum(tasks, Ends(Collision)) + Sum(tasks, Ends(NoSlotsOffered))
      + Sum(tasks, Ends(SlotsReadFailed)) + Sum(tasks, Ends(BookingRefused)) + Sum(tasks, Ends(BookingUnreadable))
      == EndedCreates(tasks)
  {
    if tasks != [] {
      CreateSums(tasks[..|tasks| - 1]);
      if tasks[|tasks| - 1].pc.Ended? {
        OutcomeFitsGoal(tasks[|tasks| - 1]);
      }
    }
  }

  lemma FollowUpDue(task: Task)
    requires Explained(task)
    ensures Due(task, Ends(Cancelled)) + Due(task, Ends(CancelRefused)) + Due(task, Ends(Rescheduled))
      + Due(task, Ends(RescheduleCollision)) + Due(task, Ends(RescheduleRefused)) + Due(task, Ends(NoTarget))
      + Due(task, Ends(RescheduleSlotsReadFailed))
      == Bit(!task.goal.Create? && task.pc.Ended?)
  {
    if task.pc.Ended? { OutcomeFitsGoal(task); }
  }

  lemma {:induction false} FollowUpSums(tasks: seq<Task>)
    requires AllExplained(tasks)
    ensures Sum(tasks, Ends(Cancelled)) + Sum(tasks, Ends(CancelRefused)) + Sum(tasks, Ends(Rescheduled))
      + Sum(tasks, Ends(RescheduleCollision)) + Sum(tasks, Ends(RescheduleRefused)) + Sum(tasks, Ends(NoTarget))
      + Sum(tasks, Ends(RescheduleSlotsReadFailed))
      == EndedFollowUps(tasks)
  {
    if tasks != [] {
      FollowUpSums(tasks[..|tasks| - 1]);
      FollowUpDue(tasks[|tasks| - 1]);
    }
  }

  /** At every instant the categories hold exactly the intents that have ended: none twice, none lost. */
  lemma {:induction false} CategoriesHoldTheEnded(plan: seq<PlannedBooking>, steps: seq<Step>, s: State)
    requires Run(plan, steps) == Some(s)
    ensures CreateTotal(s.result) == EndedCreates(s.tasks)
    ensures FollowUpTotal(s.result) == EndedFollowUps(s.tasks)
  {
    FieldsOfRun(plan, steps, s);
    CreateSums(s.tasks);
    FollowUpSums(s.tasks);
  }

  lemma {:induction false} EndedCounts(tasks: seq<Task>, n: nat)
    requires AllEnded(tasks) && n <= |tasks|
    requires forall i :: 0 <= i < |tasks| ==> (tasks[i].goal.Create? <==> i < n)
    ensures EndedCreates(tasks) == n && EndedFollowUps(tasks) == |tasks| - n
  {
    if tasks != [] {
      var k := |tasks| - 1;
      EndedCounts(tasks[..k], if n <= k then n else k);
    }
  }

  /** When the phase is over, both sums of C13 hold. */
  lemma {:induction false} CategoriesSumToPlan(plan: seq<PlannedBooking>, steps: seq<Step>, s: State)
    requires Run(plan, steps) == Some(s) && Finished(s)
    ensures CreateTotal(s.result) == |plan|
    ensures FollowUpTotal(s.result) == s.result.followUpsAttempted == |s.tasks| - |plan|
  {
    CategoriesHoldTheEnded(plan, steps, s);
    FieldsOfRun(plan, steps, s);
    EndedCounts(s.tasks, |plan|);
  }

  // ------------------------------------------------------------------
  // The latencies and the tally add up
  // ------------------------------------------------------------------

  ghost predicate TaskAddsUp(task: Task) {
    && Due(task, Bookings) == Due(task, Ends(Booked)) + Due(task, Ends(Collision))
         + Due(task, Ends(BookingRefused)) + Due(task, Ends(BookingUnreadable))
    && Due(task, Cancels) == Due(task, Ends(Cancelled)) + Due(task, Ends(CancelRefused))
    && Due(task, Moves) == Due(task, Ends(Rescheduled)) + Due(task, Ends(RescheduleCollision))
        + Due(task, Ends(RescheduleRefused))
    && Due(task, Reads) == Due(task, Bookings) + Due(task, Ends(NoSlotsOffered)) + Due(task, Ends(SlotsReadFailed))
         + Due(task, Moves) + Due(task, Ends(NoTarget)) + Due(task, Ends(RescheduleSlotsReadFailed))
    && Due(task, TallyTotal) == Due(task, Reads) + Due(task, Bookings) + Due(task, Cancels) + Due(task, Moves)
  }

  lemma EndedTaskAddsUp(task: Task)
    requires Explained(task) && task.pc.Ended?
    ensures TaskAddsUp(task)
  {
    OutcomeFitsGoal(task);
  }

  ghost predicate AddsUp(tasks: seq<Task>) {
    && Sum(tasks, Bookings) == Sum(tasks, Ends(Booked)) + Sum(tasks, Ends(Collision))
         + Sum(tasks, Ends(BookingRefused)) + Sum(tasks, Ends(BookingUnreadable))
    && Sum(tasks, Cancels) == Sum(tasks, Ends(Cancelled)) + Sum(tasks, Ends(CancelRefused))
    && Sum(tasks, Moves) == Sum(tasks, Ends(Rescheduled)) + Sum(tasks, Ends(RescheduleCollision))
        + Sum(tasks, Ends(RescheduleRefused))
    && Sum(tasks, Reads) == Sum(tasks, Bookings) + Sum(tasks, Ends(NoSlotsOffered)) + Sum(tasks, Ends(SlotsReadFailed))
         + Sum(tasks, Moves) + Sum(tasks, Ends(NoTarget)) + Sum(tasks, Ends(RescheduleSlotsReadFailed))
    && Sum(tasks, TallyTotal) == Sum(tasks, Reads) + Sum(tasks, Bookings) + Sum(tasks, Cancels) + Sum(tasks, Moves)
  }

  lemma {:induction false} EndedAddUp(tasks: seq<Task>)
    requires AllExplained(tasks) && AllEnded(tasks)
    ensures AddsUp(tasks)
  {
    if tasks != [] {
      EndedAddUp(tasks[..|tasks| - 1]);
      EndedTaskAddsUp(tasks[|tasks| - 1]);
    }
  }

  /**
    Each latency has one sample for each request its categories say was made, and the tally one entry for
    each sample.
   */
  lemma {:induction false} LatenciesAddUp(plan: seq<PlannedBooking>, steps: seq<Step>, s: State)
    requires Run(plan, steps) == Some(s) && Finished(s)
    ensures var r := s.result;
      && |r.bookingLatency| == |r.booked| + r.collisions + |r.bookingRefused| + |r.bookingUnreadable|
      && |r.cancelLatency| == r.cancelled + |r.cancelRefused|
      && |r.rescheduleLatency| == r.rescheduled + r.rescheduleCollisions + |r.rescheduleRefused|
      && |r.slotsLatency| == |plan| + |r.rescheduleLatency| + r.rescheduleNoTarget + |r.rescheduleSlotsReadFailed|
      && |r.tally| == |r.slotsLatency| + |r.bookingLatency| + |r.cancelLatency| + |r.rescheduleLatency|
  {
    FieldsOfRun(plan, steps, s);
    EndedAddUp(s.tasks);
    CategoriesSumToPlan(plan, steps, s);
  }

  // ------------------------------------------------------------------
  // What a pass of C13 means
  // ------------------------------------------------------------------

  /** An outcome that is a finding, not ordinary traffic. */
  predicate IsFinding(o: Outcome) {
    || o.SlotsReadFailed? || o.BookingRefused? || o.BookingUnreadable?
    || o.CancelRefused? || o.RescheduleRefused? || o.RescheduleSlotsReadFailed?
  }

  ghost predicate Clean(tasks: seq<Task>) {
    forall i :: 0 <= i < |tasks| ==> tasks[i].pc.Ended? && !IsFinding(tasks[i].pc.outcome)
  }

  lemma {:induction false} NoneEndsSo(tasks: seq<Task>, o: Outcome)
    ensures Sum(tasks, Ends(o)) == 0 <==> forall i :: 0 <= i < |tasks| ==> tasks[i].pc != Ended(o)
  {
    if tasks != [] {
      var init := tasks[..|tasks| - 1];
      NoneEndsSo(init, o);
      if Sum(tasks, Ends(o)) == 0 {
        forall i | 0 <= i < |tasks| ensures tasks[i].pc != Ended(o) {
          if i < |init| {
            assert init[i].pc != Ended(o);
          }
        }
      } else if Sum(init, Ends(o)) != 0 {
        var i :| 0 <= i < |init| && init[i].pc == Ended(o);
        assert tasks[i].pc == Ended(o);
      }
    }
  }

  lemma UnexpectedIsFinding(s: State)
    requires CreateFields(s.result, s.tasks) && FollowUpFields(s.result, s.tasks) && AllEnded(s.tasks)
    ensures HasUnexpected(s.result) <==> !Clean(s.tasks)
  {
    NoneEndsSo(s.tasks, SlotsReadFailed);
    NoneEndsSo(s.tasks, BookingRefused);
    NoneEndsSo(s.tasks, BookingUnreadable);
    NoneEndsSo(s.tasks, CancelRefused);
    NoneEndsSo(s.tasks, RescheduleRefused);
    NoneEndsSo(s.tasks, RescheduleSlotsReadFailed);
  }

  /** C13 passes exactly when something was planned and no intent ended in a finding. */
  lemma AccountingPassesIff(plan: seq<PlannedBooking>, steps: seq<Step>, s: State)
    requires Run(plan, steps) == Some(s) && Finished(s)
    ensures JudgeOrganicAccounting(s.result, |plan|) <==> plan != [] && Clean(s.tasks)
  {
    CategoriesSumToPlan(plan, steps, s);
    FieldsOfRun(plan, steps, s);
    UnexpectedIsFinding(s);
  }

  const CONFLICT: (nat, string) := (409, COLLISION)

  lemma KeyCountPair(log: seq<Response>, key: (nat, string))
    ensures |log| == 1 ==> KeyCount(log, key) == Bit(TallyKey(log[0]) == key)
    ensures |log| == 2 ==> KeyCount(log, key) == Bit(TallyKey(log[0]) == key) + Bit(TallyKey(log[1]) == key)
  {
    if |log| == 1 {
      assert log[..0] == [];
    } else if |log| == 2 {
      KeyCountSnoc([], log[0], key);
      KeyCountSnoc([log[0]], log[1], key);
      assert [] + [log[0]] == [log[0]] && log == [log[0]] + [log[1]];
    }
  }

  /** The task ended in one of the two outcomes that count as ordinary crowding. */
  predicate EndedColliding(task: Task) {
    task.pc == Ended(Collision) || task.pc == Ended(RescheduleCollision)
  }

  predicate IsCollisionWith409(task: Task) {
    EndedColliding(task) ==> task.log != [] && Last(task.log).status == 409
  }

  /** Every collision was answered with 409. */
  ghost predicate CollidedWith409(tasks: seq<Task>) {
    forall i :: 0 <= i < |tasks| ==> IsCollisionWith409(tasks[i])
  }

  lemma CollidedSnoc(tasks: seq<Task>)
    requires tasks != []
    ensures var n := |tasks| - 1;
      CollidedWith409(tasks) <==> CollidedWith409(tasks[..n]) && IsCollisionWith409(tasks[n])
  {
    var n := |tasks| - 1;
    assert forall i :: 0 <= i < n ==> tasks[..n][i] == tasks[i];
  }

  lemma ConflictKey(response: Response)
    ensures TallyKey(response) == CONFLICT <==> response.errorCode == COLLISION && response.status == 409
  {
    assert COLLISION != "" && COLLISION != "ok" && COLLISION != "unclassified";
  }

  /**
    Of an intent that ended in ordinary traffic, only the answer it collided with can be in the tally as a
    conflict.
   */
  lemma {:induction false} CleanTaskConflicts(task: Task)
    requires Explained(task) && task.pc.Ended? && !IsFinding(task.pc.outcome)
    ensures Due(task, InTally(CONFLICT)) == Bit(EndedColliding(task) && Last(task.log).status == 409)
    ensures Due(task, Ends(Collision)) + Due(task, Ends(RescheduleCollision)) == Bit(EndedColliding(task))
  {
    KeyCountPair(task.log, CONFLICT);
    ConflictKey(task.log[0]);
    ConflictKey(Last(task.log));
  }

  lemma {:induction false} CleanConflicts(tasks: seq<Task>)
    requires AllExplained(tasks) && Clean(tasks)
    ensures Sum(tasks, InTally(CONFLICT)) <= Sum(tasks, Ends(Collision)) + Sum(tasks, Ends(RescheduleCollision))
    ensures Sum(tasks, InTally(CONFLICT)) == Sum(tasks, Ends(Collision)) + Sum(tasks, Ends(RescheduleCollision))
      <==> CollidedWith409(tasks)
  {
    if tasks != [] {
      CleanConflicts(tasks[..|tasks| - 1]);
      CleanTaskConflicts(tasks[|tasks| - 1]);
      CollidedSnoc(tasks);
    }
  }

  /** The tally counts under each key the responses that have it. */
  lemma {:induction false} TallyOfRun(plan: seq<PlannedBooking>, steps: seq<Step>, s: State, key: (nat, string))
    requires Run(plan, steps) == Some(s)
    ensures s.result.tally[key] == Sum(s.tasks, InTally(key))
  {
    RunInv(plan, steps);
    assert Kept(s.result, InTally(key)) == Sum(s.tasks, InTally(key));
  }

  /**
    In a run that passes, the tally never has more conflicts than the two legs have collisions, and
    it has as many exactly when each of those collisions was answered with 409.
   */
  lemma {:induction false} ConflictsAreCollisions(plan: seq<PlannedBooking>, steps: seq<Step>, s: State)
    requires Run(plan, steps) == Some(s) && Finished(s) && JudgeOrganicAccounting(s.result, |plan|)
    ensures s.result.tally[CONFLICT] <= s.result.collisions + s.result.rescheduleCollisions
    ensures s.result.tally[CONFLICT] == s.result.collisions + s.result.rescheduleCollisions <==>
        CollidedWith409(s.tasks)
  {
    AccountingPassesIff(plan, steps, s);
    FieldsOfRun(plan, steps, s);
    CleanConflicts(s.tasks);
    TallyOfRun(plan, steps, s, CONFLICT);
  }

  lemma RunSnoc(plan: seq<PlannedBooking>, steps: seq<Step>, s: State, step: Step)
    requires Run(plan, steps) == Some(s) && Enabled(s, step)
    ensures Run(plan, steps + [step]) == Some(Next(plan, s, step))
  {
    assert (steps + [step])[..|steps + [step]| - 1] == steps;
  }

  lemma ThenWork(plan: seq<PlannedBooking>, steps: seq<Step>, s: State, task: Task, response: Response)
    returns (steps': seq<Step>, s': State)
    requires Run(plan, steps) == Some(s) && s.tasks == [task] && Enabled(s, Work(0, response))
    ensures Run(plan, steps') == Some(s') && s'.followedUp == s.followedUp
    ensures s'.tasks == [Advance(task, s.result, response).0] && s'.result == Advance(task, s.result, response).1
  {
    RunSnoc(plan, steps, s, Work(0, response));
    steps', s' := steps + [Work(0, response)], Next(plan, s, Work(0, response));
  }

  /** One intent, from its read to a collision. */
  lemma RunToCollision(item: PlannedBooking, read: Response, post: Response) returns (steps: seq<Step>, s: State)
    requires AfterRead(Create(item), read).None? && AfterPost(Create(item), post) == Collision
    ensures Run([item], steps) == Some(s) && !s.followedUp
    ensures s.tasks == [Task(Create(item), Ended(Collision), [read, post])]
  {
    var plan, goal := [item], Create(item);
    assert [] + [read] == [read] && [read] + [post] == [read, post];
    steps, s := [], Begin(plan);
    assert s.tasks == [Task(goal, Waiting, [])];
    steps, s := ThenWork(plan, steps, s, Task(goal, Waiting, []), read);
    steps, s := ThenWork(plan, steps, s, Task(goal, ReadTimed, [read]), post);
    steps, s := ThenWork(plan, steps, s, Task(goal, ReadTallied, [read]), post);
    steps, s := ThenWork(plan, steps, s, Task(goal, PostTimed, [read, post]), post);
    steps, s := ThenWork(plan, steps, s, Task(goal, PostTallied, [read, post]), post);
  }

  /** Then the phase ends, if no follow-up is wanted. */
  lemma RunOne(item: PlannedBooking, read: Response, post: Response) returns (steps: seq<Step>, s: State)
    requires item.followUp.NoFollowUp?
    requires AfterRead(Create(item), read).None? && AfterPost(Create(item), post) == Collision
    ensures Run([item], steps) == Some(s) && Finished(s)
    ensures s.tasks == [Task(Create(item), Ended(Collision), [read, post])]
  {
    steps, s := RunToCollision(item, read, post);
    RunSnoc([item], steps, s, StartFollowUps);
    assert [item][..0] == [];
    assert FollowUps([item], s.result.booked) == [];
    steps, s := steps + [StartFollowUps], Next([item], s, StartFollowUps);
  }

  /**
    A create answered 500 with the code of a taken slot: C13 passes with a collision that is no conflict
    in the tally.
   */
  lemma {:induction false} CollisionWithoutConflict(item: PlannedBooking) returns (steps: seq<Step>, s: State)
    requires item.followUp.NoFollowUp?
    ensures Run([item], steps) == Some(s) && Finished(s) && JudgeOrganicAccounting(s.result, 1)
    ensures s.result.collisions + s.result.rescheduleCollisions == 1 && s.result.tally[CONFLICT] == 0
  {
    var read := Response(200, "", Slots(["09:00"]), 0.0, 0.0);
    var post := Response(500, COLLISION, OtherBody, 0.0, 0.0);
    steps, s := RunOne(item, read, post);
    assert Clean(s.tasks) && EndedColliding(s.tasks[0]);
    AccountingPassesIff([item], steps, s);
    ConflictsAreCollisions([item], steps, s);
    FieldsOfRun([item], steps, s);
    assert s.tasks[..|s.tasks| - 1] == [];
  }

  // ------------------------------------------------------------------
  // Follow-ups act on their own bookings
  // ------------------------------------------------------------------

  /** The booking a task that ended booked has made. */
  function RefOf(task: Task): BookedRef
    requires Explained(task) && task.pc == Ended(Booked)
  {
    var r := Last(task.log);
    BookedRef(r.body.id, task.goal.item.slug, task.goal.item.guestEmail, r.body.start, r.sentAt)
  }

  predicate IsBooked(task: Task) { Explained(task) && task.pc == Ended(Booked) }

  ghost predicate MadeBy(tasks: seq<Task>, ref: BookedRef) {
    exists i :: 0 <= i < |tasks| && IsBooked(tasks[i]) && RefOf(tasks[i]) == ref
  }

  /** The bookings filed are exactly those the booked tasks made. */
  ghost predicate Filing(tasks: seq<Task>, booked: seq<BookedRef>) {
    && (forall i :: 0 <= i < |tasks| && IsBooked(tasks[i]) ==> RefOf(tasks[i]) in booked)
    && (forall ref :: ref in booked ==> MadeBy(tasks, ref))
  }

  lemma {:induction false} AdvanceFiles(task: Task, r: OrganicResult, response: Response)
    requires Explained(task) && !task.pc.Ended?
    ensures var (task', r') := Advance(task, r, response);
      && Explained(task')
      && r'.booked == r.booked + if IsBooked(task') then [RefOf(task')] else []
  {
    AdvanceKeeps(task, r, response, Reads);
  }

  /** A task that was not booked is replaced by one whose booking, if any, is filed. */
  lemma ReplaceFiles(tasks: seq<Task>, booked: seq<BookedRef>, i: nat, task: Task, booked': seq<BookedRef>)
    requires i < |tasks| && Filing(tasks, booked) && !tasks[i].pc.Ended?
    requires booked' == booked + if IsBooked(task) then [RefOf(task)] else []
    ensures Filing(tasks[i := task], booked')
  {
    var after := tasks[i := task];
    forall ref | ref in booked' ensures MadeBy(after, ref) {
      if ref in booked {
        assert MadeBy(tasks, ref);
        var j :| 0 <= j < |tasks| && IsBooked(tasks[j]) && RefOf(tasks[j]) == ref;
        assert after[j] == tasks[j];
      } else {
        assert IsBooked(after[i]);
      }
    }
    forall j | 0 <= j < |after| && IsBooked(after[j]) ensures RefOf(after[j]) in booked' {
      if j != i {
        assert after[j] == tasks[j];
      }
    }
  }

  lemma {:induction false} WorkFiles(plan: seq<PlannedBooking>, s: State, i: nat, response: Response)
    requires Filing(s.tasks, s.result.booked) && Enabled(s, Work(i, response))
    ensures var s' := Next(plan, s, Work(i, response)); Filing(s'.tasks, s'.result.booked)
  {
    var s' := Next(plan, s, Work(i, response));
    AdvanceFiles(s.tasks[i], s.result, response);
    ReplaceFiles(s.tasks, s.result.booked, i, s'.tasks[i], s'.result.booked);
  }

  lemma StartFiles(plan: seq<PlannedBooking>, s: State)
    requires Filing(s.tasks, s.result.booked) && Enabled(s, StartFollowUps)
    ensures var s' := Next(plan, s, StartFollowUps); Filing(s'.tasks, s'.result.booked)
  {
    var s' := Next(plan, s, StartFollowUps);
    FollowUpsFresh(plan, s.result.booked);
    forall ref | ref in s'.result.booked ensures MadeBy(s'.tasks, ref) {
      assert MadeBy(s.tasks, ref);
      var j :| 0 <= j < |s.tasks| && IsBooked(s.tasks[j]) && RefOf(s.tasks[j]) == ref;
      assert s'.tasks[j] == s.tasks[j];
    }
  }

  lemma {:induction false} RunFiles(plan: seq<PlannedBooking>, steps: seq<Step>)
    ensures Run(plan, steps).Some? ==>
      Filing(Run(plan, steps).value.tasks, Run(plan, steps).value.result.booked)
  {
    if steps != [] && Run(plan, steps).Some? {
      var s, step := Run(plan, steps[..|steps| - 1]).value, steps[|steps| - 1];
      RunFiles(plan, steps[..|steps| - 1]);
      match step
      case Work(i, response) => WorkFiles(plan, s, i, response);
      case StartFollowUps => StartFiles(plan, s);
    }
  }

  lemma {:induction false} ByEmailFinds(booked: seq<BookedRef>, email: string)
    ensures ByEmail(booked, email).Some? ==>
        ByEmail(booked, email).value in booked && ByEmail(booked, email).value.guestEmail == email
    ensures ByEmail(booked, email).None? ==> forall ref :: ref in booked ==> ref.guestEmail != email
  {
    if booked != [] {
      ByEmailFinds(booked[..|booked| - 1], email);
    }
  }

  /** The follow-up an intent wants of its own booking. */
  function OwnFollowUp(task: Task): Option<Goal> {
    if !IsBooked(task) then None
    else
      match task.goal.item.followUp
      case NoFollowUp => None
      case Cancel => Some(CancelIt(task.goal.item, RefOf(task)))
      case Reschedule => Some(MoveIt(task.goal.item, RefOf(task)))
  }

  ghost predicate DistinctEmails(plan: seq<PlannedBooking>) {
    forall i, j :: 0 <= i < j < |plan| ==> plan[i].guestEmail != plan[j].guestEmail
  }

  /**
    When addresses are distinct, as the plan's are, the follow-up of an intent is for the booking that
    intent made, and there is one exactly when it was booked and wants one.
   */
  lemma {:induction false} FollowUpIsOwn(plan: seq<PlannedBooking>, steps: seq<Step>, s: State, i: nat)
    requires Run(plan, steps) == Some(s) && Enabled(s, StartFollowUps) && DistinctEmails(plan) && i < |plan|
    ensures i < |s.tasks| && FollowUpGoal(plan[i], s.result.booked) == OwnFollowUp(s.tasks[i])
  {
    RunInv(plan, steps);
    RunFiles(plan, steps);
    var found := ByEmail(s.result.booked, plan[i].guestEmail);
    ByEmailFinds(s.result.booked, plan[i].guestEmail);
    if found.Some? {
      assert MadeBy(s.tasks, found.value);
      var j :| 0 <= j < |s.tasks| && IsBooked(s.tasks[j]) && RefOf(s.tasks[j]) == found.value;
      assert plan[j].guestEmail == plan[i].guestEmail;
      assert j == i;
    }
  }

  /** The follow-ups that these tasks want, each of its own booking. */
  function Wanted(tasks: seq<Task>): seq<Task> {
    if tasks == [] then []
    else
      var rest := Wanted(tasks[..|tasks| - 1]);
      match OwnFollowUp(tasks[|tasks| - 1])
      case None => rest
      case Some(goal) => rest + [Task(goal, Waiting, [])]
  }

  lemma {:induction false} FollowUpsAreWanted(plan: seq<PlannedBooking>, booked: seq<BookedRef>, tasks: seq<Task>)
    requires |tasks| == |plan|
    requires forall i :: 0 <= i < |plan| ==> FollowUpGoal(plan[i], booked) == OwnFollowUp(tasks[i])
    ensures FollowUps(plan, booked) == Wanted(tasks)
  {
    if plan != [] {
      FollowUpsAreWanted(plan[..|plan| - 1], booked, tasks[..|tasks| - 1]);
    }
  }

  /**
    When addresses are distinct, the follow-up phase adds exactly the follow-ups that the booked
    intents want, in the order of the plan and each of the intent's own booking, and attempts all.
   */
  lemma {:induction false} StartAddsWanted(plan: seq<PlannedBooking>, steps: seq<Step>, s: State)
    requires Run(plan, steps) == Some(s) && Enabled(s, StartFollowUps) && DistinctEmails(plan)
    ensures Next(plan, s, StartFollowUps).tasks == s.tasks + Wanted(s.tasks)
    ensures Next(plan, s, StartFollowUps).result.followUpsAttempted == |Wanted(s.tasks)|
  {
    RunInv(plan, steps);
    forall i | 0 <= i < |plan| ensures FollowUpGoal(plan[i], s.result.booked) == OwnFollowUp(s.tasks[i]) {
      FollowUpIsOwn(plan, steps, s, i);
    }
    FollowUpsAreWanted(plan, s.result.booked, s.tasks);
  }
}
