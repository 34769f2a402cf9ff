/**
  The outbox sampler's pause, stop and seal protocol, as a system of atomic steps.

  Any number of threads call `start`, `pause`, `resume` and `stop`, and every `start` adds one more
  sampling thread.  A step is one access to a flag, a lock or the lock-protected lists.

  The steps of different threads interleave in every possible way.  A sampling thread that outlives
  the join in `stop` is an ordinary thread that keeps taking steps.
 */
module OutboxSampler {
  import opened Wrappers

  type Tid = nat

  type Seconds = r: real | r >= 0.0

  /** A parsed scrape; the parser refuses negative counts and ages. */
  datatype Reading = Reading(due: nat, age: Seconds)

  /** How one scrape of the operator surface ends. */
  datatype Outcome = Read(reading: Reading) | Broken(reason: string)

  /** What became of a scrape that ended. */
  datatype Fate = Pending | Sampled | Failed | Discarded | Dropped

  datatype Scrape = Scrape(outcome: Outcome, fate: Fate)

  /** Entries of the two recorded lists, tagged with where they came from. */
  datatype SampleEntry = Probe(reading: Reading) | Looped(scrape: nat, reading: Reading)

  datatype FailureEntry = ScrapeFailed(scrape: nat, reason: string) | StillRunning

  datatype Snapshot = Snapshot(samples: seq<SampleEntry>, failures: seq<FailureEntry>, discarded: nat)

  datatype Pc =
    | Idle
      // the sampling loop
    | LoopTop | LoopPauseTest | LoopAcquire | LoopRecheck | Scraping
    | FileAcquire(scrape: nat, outcome: Outcome) | FileSealTest(scrape: nat, outcome: Outcome)
    | FilePauseTest(scrape: nat, outcome: Outcome) | FileWrite(scrape: nat, outcome: Outcome, discard: bool)
    | FileUnlock | LoopRelease | LoopWait | LoopDone
      // pause
    | PauseAcquire | PauseRelease
      // stop
    | StopLock | StopPeek | StopUnlock | StopJoin | StopRelock(alive: bool) | StopSeal(alive: bool)
    | StopReturn(result: Snapshot)
      // start
    | StartLock(probe: Reading) | StartFile(probe: Reading) | StartUnlock | StartSpawn

  datatype State = State(
    pcs: map<Tid, Pc>,
    paused: bool,
    stopping: bool,
    inFlight: Option<Tid>,   // holder of the in-flight lock
    lock: Option<Tid>,       // holder of the list lock
    thread: Option<Tid>,     // the sampling thread started last
    samples: seq<SampleEntry>,
    failures: seq<FailureEntry>,
    discarded: nat,
    results: Option<Snapshot>,
    scrapes: seq<Scrape>     // every scrape that ended, in order: history, read by no step
  )

  datatype Step =
    | CallPause(t: Tid)
    | CallResume(t: Tid)
    | CallStop(t: Tid)
    | CallStart(t: Tid, probe: Reading)   // the probe has been read; a probe that raises changes nothing
    | Advance(t: Tid, outcome: Outcome, child: Tid)

  function At(s: State, t: Tid): Pc {
    if t in s.pcs then s.pcs[t] else Idle
  }

  function Init(): State {
    State(map[], false, false, None, None, None, [], [], 0, None, [])
  }

  // ------------------------------------------------------------------
  // Steps
  // ------------------------------------------------------------------

  predicate WantsInFlight(pc: Pc) { pc.LoopAcquire? || pc.PauseAcquire? }

  predicate WantsLock(pc: Pc) { pc.FileAcquire? || pc.StopLock? || pc.StopRelock? || pc.StartLock? }

  predicate Enabled(s: State, step: Step) {
    match step
    case Advance(t, _, child) =>
      var pc := At(s, t);
      && !pc.Idle? && !pc.LoopDone?
      && (WantsInFlight(pc) ==> s.inFlight.None?)
      && (WantsLock(pc) ==> s.lock.None?)
      && (pc.StartSpawn? ==> child !in s.pcs && child != t)
    case _ => At(s, step.t).Idle?
  }

  function Goto(s: State, t: Tid, pc: Pc): State {
    s.(pcs := s.pcs[t := pc])
  }

  function Settle(scrapes: seq<Scrape>, id: nat, fate: Fate): seq<Scrape> {
    if id < |scrapes| then scrapes[id := scrapes[id].(fate := fate)] else scrapes
  }

  /** The one place a loop reading enters the object: discarded, sampled or failed. */
  function Written(s: State, id: nat, outcome: Outcome, discard: bool): State {
    if discard then s.(discarded := s.discarded + 1, scrapes := Settle(s.scrapes, id, Discarded))
    else
      match outcome
      case Read(reading) =>
        s.(samples := s.samples + [Looped(id, reading)], scrapes := Settle(s.scrapes, id, Sampled))
      case Broken(reason) =>
        s.(failures := s.failures + [ScrapeFailed(id, reason)], scrapes := Settle(s.scrapes, id, Failed))
  }

  /** `stop` under the lock: take the snapshot, unless another `stop` already has. */
  function Sealed(s: State, alive: bool): (r: State)
    ensures r.results.Some?
  {
    if s.results.Some? then s
    else
      var failures := s.failures + if alive then [StillRunning] else [];
      s.(failures := failures, results := Some(Snapshot(s.samples, failures, s.discarded)))
  }

  /** What a step does to the shared state, and where it leaves its thread. */
  datatype Move = Move(shared: State, pc: Pc)

  function LoopMove(s: State, t: Tid, pc: Pc, outcome: Outcome): Move {
    match pc
    case LoopTop => Move(s, if s.stopping then LoopDone else LoopPauseTest)
    case LoopPauseTest => Move(s, if s.paused then LoopWait else LoopAcquire)
    case LoopAcquire => Move(s.(inFlight := Some(t)), LoopRecheck)
    case LoopRecheck => Move(s, if s.paused then LoopRelease else Scraping)
    case Scraping => Move(s.(scrapes := s.scrapes + [Scrape(outcome, Pending)]), FileAcquire(|s.scrapes|, outcome))
    case FileAcquire(id, got) => Move(s.(lock := Some(t)), FileSealTest(id, got))
    case FileSealTest(id, got) =>
      if s.results.Some? then Move(s.(scrapes := Settle(s.scrapes, id, Dropped)), FileUnlock)
      else Move(s, FilePauseTest(id, got))
    case FilePauseTest(id, got) => Move(s, FileWrite(id, got, s.paused))
    case FileWrite(id, got, discard) => Move(Written(s, id, got, discard), FileUnlock)
    case FileUnlock => Move(s.(lock := None), LoopRelease)
    case LoopRelease => Move(s.(inFlight := None), LoopWait)
    case LoopWait => Move(s, LoopTop)
    case _ => Move(s, pc)
  }

  function CallerMove(s: State, t: Tid, pc: Pc): Move {
    match pc
    case PauseAcquire => Move(s.(inFlight := Some(t)), PauseRelease)
    case PauseRelease => Move(s.(inFlight := None), Idle)
    case StopLock => Move(s.(lock := Some(t)), StopPeek)
    case StopPeek => Move(s, if s.results.Some? then StopReturn(s.results.value) else StopUnlock)
    case StopUnlock => Move(s.(lock := None), StopJoin)
    case StopJoin => Move(s, StopRelock(s.thread.Some? && !At(s, s.thread.value).LoopDone?))
    case StopRelock(alive) => Move(s.(lock := Some(t)), StopSeal(alive))
    case StopSeal(alive) =>
      var sealed := Sealed(s, alive);
      Move(sealed, StopReturn(sealed.results.value))
    case StopReturn(_) => Move(s.(lock := None), Idle)
    case StartLock(probe) => Move(s.(lock := Some(t)), StartFile(probe))
    case StartFile(probe) => Move(s.(samples := s.samples + [Probe(probe)]), StartUnlock)
    case StartUnlock => Move(s.(lock := None), StartSpawn)
    case _ => Move(s, pc)
  }

  predicate LoopPc(pc: Pc) {
    || pc.LoopTop? || pc.LoopPauseTest? || pc.LoopAcquire? || pc.LoopRecheck? || pc.Scraping?
    || pc.FileAcquire? || pc.FileSealTest? || pc.FilePauseTest? || pc.FileWrite? || pc.FileUnlock?
    || pc.LoopRelease? || pc.LoopWait? || pc.LoopDone?
  }

  /** The move an `Advance` step makes, unless it spawns a thread. */
  function MoveOf(s: State, t: Tid, outcome: Outcome): Move {
    var pc := At(s, t);
    if LoopPc(pc) then LoopMove(s, t, pc, outcome) else CallerMove(s, t, pc)
  }

  function Apply(s: State, step: Step): State {
    match step
    case CallPause(t) => Goto(s.(paused := true), t, PauseAcquire)
    case CallResume(t) => s.(paused := false)
    case CallStop(t) => Goto(s.(stopping := true), t, StopLock)
    case CallStart(t, probe) => Goto(s, t, StartLock(probe))
    case Advance(t, outcome, child) =>
      var pc := At(s, t);
      if pc.StartSpawn? then Goto(Goto(s.(thread := Some(child)), child, LoopTop), t, Idle)
      else Goto(MoveOf(s, t, outcome).shared, t, MoveOf(s, t, outcome).pc)
  }

  /** Step `i` leads from state `i` to the next. */
  predicate Leads(states: seq<State>, steps: seq<Step>, i: nat)
    requires i < |steps| < |states|
  {
    Enabled(states[i], steps[i]) && states[i + 1] == Apply(states[i], steps[i])
  }

  /** A run: every state is reached from the one before by the step between them. */
  ghost predicate Execution(states: seq<State>, steps: seq<Step>) {
    && |states| == |steps| + 1
    && states[0] == Init()
    && (forall i :: 0 <= i < |steps| ==> Leads(states, steps, i))
  }

  // ------------------------------------------------------------------
  // The invariant
  // ------------------------------------------------------------------

  predicate HoldsLock(pc: Pc) {
    || pc.FileSealTest? || pc.FilePauseTest? || pc.FileWrite? || pc.FileUnlock?
    || pc.StopPeek? || pc.StopUnlock? || pc.StopSeal? || pc.StopReturn?
    || pc.StartFile? || pc.StartUnlock?
  }

  /** A scrape is being made, or its result is not filed yet. */
  predicate InScrape(pc: Pc) {
    pc.Scraping? || Filing(pc)
  }

  predicate Filing(pc: Pc) {
    pc.FileAcquire? || pc.FileSealTest? || pc.FilePauseTest? || pc.FileWrite?
  }

  predicate HoldsInFlight(pc: Pc) {
    InScrape(pc) || pc.LoopRecheck? || pc.FileUnlock? || pc.LoopRelease? || pc.PauseRelease?
  }

  ghost predicate LocksHeld(s: State) {
    && (forall t: Tid :: HoldsLock(At(s, t)) <==> s.lock == Some(t))
    && (forall t: Tid :: HoldsInFlight(At(s, t)) <==> s.inFlight == Some(t))
  }

  /** No scrape is pending, except the newest while `pc` is filing it. */
  ghost predicate PendingFits(scrapes: seq<Scrape>, pc: Pc) {
    && (Filing(pc) ==>
          && 0 < |scrapes| == pc.scrape + 1
          && scrapes[pc.scrape] == Scrape(pc.outcome, Pending))
    && (forall i :: 0 <= i < |scrapes| && scrapes[i].fate == Pending ==> Filing(pc) && i == pc.scrape)
  }

  /** The program point of the thread that holds the in-flight lock. */
  function Holder(s: State): Pc {
    if s.inFlight.Some? then At(s, s.inFlight.value) else Idle
  }

  ghost predicate OnePending(s: State) {
    PendingFits(s.scrapes, Holder(s))
  }

  /** The scrapes with a given fate, as the entries they become. */
  ghost function SampledOf(scrapes: seq<Scrape>): seq<SampleEntry> {
    if scrapes == [] then []
    else
      var n := |scrapes| - 1;
      SampledOf(scrapes[..n])
      + if scrapes[n].fate == Sampled && scrapes[n].outcome.Read? then [Looped(n, scrapes[n].outcome.reading)] else []
  }

  ghost function FailedOf(scrapes: seq<Scrape>): seq<FailureEntry> {
    if scrapes == [] then []
    else
      var n := |scrapes| - 1;
      FailedOf(scrapes[..n])
      + if scrapes[n].fate == Failed && scrapes[n].outcome.Broken?
        then [ScrapeFailed(n, scrapes[n].outcome.reason)] else []
  }

  ghost function CountFate(scrapes: seq<Scrape>, fate: Fate): nat {
    if scrapes == [] then 0
    else CountFate(scrapes[..|scrapes| - 1], fate) + if scrapes[|scrapes| - 1].fate == fate then 1 else 0
  }

  ghost function LoopedIn(samples: seq<SampleEntry>): seq<SampleEntry> {
    if samples == [] then []
    else LoopedIn(samples[..|samples| - 1]) + if samples[|samples| - 1].Looped? then [samples[|samples| - 1]] else []
  }

  ghost function ScrapeFailedIn(failures: seq<FailureEntry>): seq<FailureEntry> {
    if failures == [] then []
    else
      ScrapeFailedIn(failures[..|failures| - 1])
      + if failures[|failures| - 1].ScrapeFailed? then [failures[|failures| - 1]] else []
  }

  /** The recorded lists hold exactly the scrapes with the matching fate, in order. */
  ghost predicate LedgerAgrees(s: State) {
    && LoopedIn(s.samples) == SampledOf(s.scrapes)
    && ScrapeFailedIn(s.failures) == FailedOf(s.scrapes)
    && s.discarded == CountFate(s.scrapes, Discarded)
    && FatesFit(s.scrapes)
  }

  /** Only readings are samples, and only broken scrapes are failures. */
  ghost predicate FatesFit(scrapes: seq<Scrape>) {
    forall i :: 0 <= i < |scrapes| ==>
      && (scrapes[i].fate == Sampled ==> scrapes[i].outcome.Read?)
      && (scrapes[i].fate == Failed ==> scrapes[i].outcome.Broken?)
  }

  /** `later` is `earlier` followed only by readings that `start` kept. */
  ghost predicate OnlyProbesSince(earlier: seq<SampleEntry>, later: seq<SampleEntry>) {
    && earlier <= later
    && (forall i :: |earlier| <= i < |later| ==> later[i].Probe?)
  }

  predicate InStop(pc: Pc) {
    pc.StopLock? || pc.StopPeek? || pc.StopUnlock? || pc.StopJoin? || pc.StopRelock? || pc.StopSeal? || pc.StopReturn?
  }

  /** Once sealed, failures and discards are the snapshot's, and so are the samples but for probes. */
  ghost predicate Frozen(s: State) {
    s.results.Some? ==>
      && s.stopping
      && s.failures == s.results.value.failures
      && s.discarded == s.results.value.discarded
      && OnlyProbesSince(s.results.value.samples, s.samples)
  }

  /** What a thread at `pc` knows about the seal. */
  ghost predicate KnowsSeal(s: State, pc: Pc) {
    && (pc.FilePauseTest? || pc.FileWrite? ==> s.results.None?)
    && (pc.StopReturn? ==> s.results == Some(pc.result))
    && (InStop(pc) ==> s.stopping)
  }

  ghost predicate SealHolds(s: State) {
    Frozen(s) && (forall t: Tid :: KnowsSeal(s, At(s, t)))
  }

  ghost predicate Inv(s: State) {
    LocksHeld(s) && OnePending(s) && LedgerAgrees(s) && SealHolds(s)
  }

  lemma InitInv()
    ensures Inv(Init())
  {
  }

  // ------------------------------------------------------------------
  // Every step keeps it
  // ------------------------------------------------------------------

  ghost predicate OnlyMoves(s: State, s': State, t: Tid) {
    forall u: Tid :: u != t ==> At(s', u) == At(s, u)
  }

  /** A thread takes or gives up a lock only as its program points say. */
  ghost predicate LocksFollow(s: State, s': State, t: Tid, pc: Pc, pc': Pc) {
    && (if HoldsLock(pc') == HoldsLock(pc) then s'.lock == s.lock
        else if HoldsLock(pc') then s.lock.None? && s'.lock == Some(t)
        else s'.lock.None?)
    && (if HoldsInFlight(pc') == HoldsInFlight(pc) then s'.inFlight == s.inFlight
        else if HoldsInFlight(pc') then s.inFlight.None? && s'.inFlight == Some(t)
        else s'.inFlight.None?)
  }

  ghost predicate MovesWithLocks(s: State, s': State, t: Tid) {
    OnlyMoves(s, s', t) && LocksFollow(s, s', t, At(s, t), At(s', t))
  }

  lemma GotoMoves(s: State, shared: State, t: Tid, pc: Pc)
    requires shared.pcs == s.pcs
    ensures OnlyMoves(s, Goto(shared, t, pc), t) && At(Goto(shared, t, pc), t) == pc
    ensures Goto(shared, t, pc) == shared.(pcs := Goto(shared, t, pc).pcs)
  {
  }

  lemma {:induction false} LoopLocks(s: State, t: Tid, pc: Pc, outcome: Outcome)
    requires LoopPc(pc) && !pc.LoopDone?
    requires (WantsInFlight(pc) ==> s.inFlight.None?) && (WantsLock(pc) ==> s.lock.None?)
    ensures var move := LoopMove(s, t, pc, outcome);
            move.shared.pcs == s.pcs && LocksFollow(s, move.shared, t, pc, move.pc)
  {
    if Filing(pc) { FilingLocks(s, t, pc, outcome); }
  }

  lemma FilingLocks(s: State, t: Tid, pc: Pc, outcome: Outcome)
    requires Filing(pc) && (WantsLock(pc) ==> s.lock.None?)
    ensures var move := LoopMove(s, t, pc, outcome);
            move.shared.pcs == s.pcs && LocksFollow(s, move.shared, t, pc, move.pc)
  {
  }

  lemma CallerLocks(s: State, t: Tid, pc: Pc)
    requires !LoopPc(pc) && !pc.StartSpawn? && !pc.Idle?
    requires (WantsInFlight(pc) ==> s.inFlight.None?) && (WantsLock(pc) ==> s.lock.None?)
    ensures var move := CallerMove(s, t, pc);
            move.shared.pcs == s.pcs && LocksFollow(s, move.shared, t, pc, move.pc)
  {
  }

  /** An `Advance` step that spawns nothing is its move and nothing else. */
  lemma {:induction false} AdvanceMoves(s: State, step: Step)
    requires Enabled(s, step) && step.Advance? && !At(s, step.t).StartSpawn?
    ensures var move, s' := MoveOf(s, step.t, step.outcome), Apply(s, step);
            && move.shared.pcs == s.pcs && s' == move.shared.(pcs := s'.pcs)
            && At(s', step.t) == move.pc
            && MovesWithLocks(s, s', step.t)
  {
    var pc := At(s, step.t);
    var move := MoveOf(s, step.t, step.outcome);
    if LoopPc(pc) {
      LoopLocks(s, step.t, pc, step.outcome);
    } else {
      CallerLocks(s, step.t, pc);
    }
    GotoMoves(s, move.shared, step.t, move.pc);
  }

  lemma CallMoves(s: State, step: Step)
    requires Enabled(s, step) && !step.Advance?
    ensures MovesWithLocks(s, Apply(s, step), step.t)
  {
  }

  /** A new sampling thread holds nothing. */
  ghost predicate Spawns(s: State, s': State, t: Tid, child: Tid) {
    && s' == s.(pcs := s'.pcs, thread := Some(child))
    && At(s, t).StartSpawn? && At(s', t).Idle? && At(s, child).Idle? && At(s', child).LoopTop?
    && (forall u: Tid :: u != t && u != child ==> At(s', u) == At(s, u))
  }

  lemma SpawnMoves(s: State, step: Step)
    requires Enabled(s, step) && step.Advance? && At(s, step.t).StartSpawn?
    ensures Spawns(s, Apply(s, step), step.t, step.child)
  {
  }

  lemma {:induction false} MovesKeepLocks(s: State, s': State, t: Tid)
    requires LocksHeld(s) && MovesWithLocks(s, s', t)
    ensures LocksHeld(s')
  {
    forall u: Tid
      ensures HoldsLock(At(s', u)) <==> s'.lock == Some(u)
      ensures HoldsInFlight(At(s', u)) <==> s'.inFlight == Some(u)
    {
      assert HoldsLock(At(s, u)) <==> s.lock == Some(u);
      assert HoldsInFlight(At(s, u)) <==> s.inFlight == Some(u);
      assert HoldsLock(At(s, t)) <==> s.lock == Some(t);
      assert HoldsInFlight(At(s, t)) <==> s.inFlight == Some(t);
    }
  }

  lemma {:induction false} SpawnKeepsLocks(s: State, s': State, t: Tid, child: Tid)
    requires LocksHeld(s) && Spawns(s, s', t, child)
    ensures LocksHeld(s')
  {
    forall u: Tid
      ensures HoldsLock(At(s', u)) <==> s'.lock == Some(u)
      ensures HoldsInFlight(At(s', u)) <==> s'.inFlight == Some(u)
    {
      assert HoldsLock(At(s, u)) <==> s.lock == Some(u);
      assert HoldsInFlight(At(s, u)) <==> s.inFlight == Some(u);
    }
  }

  lemma {:induction false} LocksStep(s: State, step: Step)
    requires LocksHeld(s) && Enabled(s, step)
    ensures LocksHeld(Apply(s, step))
  {
    if !step.Advance? {
      CallMoves(s, step);
      MovesKeepLocks(s, Apply(s, step), step.t);
    } else if At(s, step.t).StartSpawn? {
      SpawnMoves(s, step);
      SpawnKeepsLocks(s, Apply(s, step), step.t, step.child);
    } else {
      AdvanceMoves(s, step);
      MovesKeepLocks(s, Apply(s, step), step.t);
    }
  }

  lemma {:induction false} NotHolder(s: State, t: Tid)
    requires LocksHeld(s) && !HoldsInFlight(At(s, t))
    ensures s.inFlight != Some(t)
  {
    assert HoldsInFlight(At(s, t)) <==> s.inFlight == Some(t);
  }

  lemma {:induction false} IsHolder(s: State, t: Tid)
    requires LocksHeld(s) && HoldsInFlight(At(s, t))
    ensures s.inFlight == Some(t) && Holder(s) == At(s, t)
  {
    assert HoldsInFlight(At(s, t)) <==> s.inFlight == Some(t);
  }

  /** Whoever does not hold the in-flight lock, before or after, leaves the scrapes alone. */
  lemma LoopPending(s: State, t: Tid, pc: Pc, outcome: Outcome)
    requires LoopPc(pc) && !pc.LoopDone? && PendingFits(s.scrapes, if HoldsInFlight(pc) then pc else Idle)
    ensures var move := LoopMove(s, t, pc, outcome);
            && PendingFits(move.shared.scrapes, move.pc)
            && (!HoldsInFlight(pc) ==> move.shared.scrapes == s.scrapes)
  {
  }

  lemma CallerPending(s: State, t: Tid, pc: Pc)
    requires !LoopPc(pc)
    ensures CallerMove(s, t, pc).shared.scrapes == s.scrapes
    ensures !Filing(pc) && !Filing(CallerMove(s, t, pc).pc)
  {
  }

  lemma {:induction false} PendingStep(s: State, step: Step)
    requires LocksHeld(s) && OnePending(s) && Enabled(s, step)
    ensures OnePending(Apply(s, step))
  {
    var t, s', pc := step.t, Apply(s, step), At(s, step.t);
    LocksStep(s, step);
    if !step.Advance? {
      CallMoves(s, step);
      NotHolder(s, t);
    } else if pc.StartSpawn? {
      SpawnMoves(s, step);
      NotHolder(s, t);
      NotHolder(s, step.child);
    } else {
      AdvanceMoves(s, step);
      if HoldsInFlight(pc) { IsHolder(s, t); } else { NotHolder(s, t); }
      if HoldsInFlight(At(s', t)) { IsHolder(s', t); } else { NotHolder(s', t); }
      if LoopPc(pc) {
        if HoldsInFlight(pc) || s.inFlight.None? {
          LoopPending(s, t, pc, step.outcome);
        }
      } else {
        CallerPending(s, t, pc);
      }
    }
  }

  // The ledger

  /** One more scrape, pending: no list changes. */
  lemma {:induction false} LedgerPending(scrapes: seq<Scrape>, outcome: Outcome)
    ensures var more := scrapes + [Scrape(outcome, Pending)];
            && SampledOf(more) == SampledOf(scrapes) && FailedOf(more) == FailedOf(scrapes)
            && CountFate(more, Discarded) == CountFate(scrapes, Discarded)
  {
    var more := scrapes + [Scrape(outcome, Pending)];
    assert more[..|more| - 1] == scrapes;
  }

  /** Settling the newest scrape adds exactly the entry its fate calls for. */
  lemma {:induction false} LedgerSettled(scrapes: seq<Scrape>, outcome: Outcome, fate: Fate)
    requires scrapes != [] && scrapes[|scrapes| - 1] == Scrape(outcome, Pending)
    ensures var n := |scrapes| - 1;
            var settled := Settle(scrapes, n, fate);
            && settled == scrapes[..n] + [Scrape(outcome, fate)]
            && SampledOf(settled) == SampledOf(scrapes)
                + (if fate == Sampled && outcome.Read? then [Looped(n, outcome.reading)] else [])
            && FailedOf(settled) == FailedOf(scrapes)
                + (if fate == Failed && outcome.Broken? then [ScrapeFailed(n, outcome.reason)] else [])
            && CountFate(settled, Discarded) == CountFate(scrapes, Discarded) + if fate == Discarded then 1 else 0
  {
    var n := |scrapes| - 1;
    var settled := Settle(scrapes, n, fate);
    assert settled[..n] == scrapes[..n];
    assert settled == scrapes[..n] + [Scrape(outcome, fate)];
  }

  lemma {:induction false} LoopedInSnoc(samples: seq<SampleEntry>, e: SampleEntry)
    ensures LoopedIn(samples + [e]) == LoopedIn(samples) + if e.Looped? then [e] else []
  {
    assert (samples + [e])[..|samples + [e]| - 1] == samples;
  }

  lemma {:induction false} ScrapeFailedInSnoc(failures: seq<FailureEntry>, e: FailureEntry)
    ensures ScrapeFailedIn(failures + [e]) == ScrapeFailedIn(failures) + if e.ScrapeFailed? then [e] else []
  {
    assert (failures + [e])[..|failures + [e]| - 1] == failures;
  }

  lemma FatesFitSettled(scrapes: seq<Scrape>, id: nat, fate: Fate)
    requires FatesFit(scrapes) && id < |scrapes|
    requires (fate == Sampled ==> scrapes[id].outcome.Read?) && (fate == Failed ==> scrapes[id].outcome.Broken?)
    ensures FatesFit(Settle(scrapes, id, fate))
  {
  }

  /** `s.scrapes` ends with the pending scrape `id`. */
  ghost predicate EndsPending(s: State, id: nat, outcome: Outcome) {
    0 < |s.scrapes| == id + 1 && s.scrapes[id] == Scrape(outcome, Pending)
  }

  lemma {:induction false} DropLedger(s: State, id: nat, outcome: Outcome, fate: Fate)
    requires LedgerAgrees(s) && EndsPending(s, id, outcome) && (fate == Dropped || fate == Discarded)
    ensures LedgerAgrees(s.(
              discarded := s.discarded + if fate == Discarded then 1 else 0, scrapes := Settle(s.scrapes, id, fate)))
  {
    LedgerSettled(s.scrapes, outcome, fate);
    FatesFitSettled(s.scrapes, id, fate);
  }

  lemma {:induction false} SampleLedger(s: State, id: nat, reading: Reading)
    requires LedgerAgrees(s) && EndsPending(s, id, Read(reading))
    ensures LedgerAgrees(s.(samples := s.samples + [Looped(id, reading)], scrapes := Settle(s.scrapes, id, Sampled)))
  {
    LedgerSettled(s.scrapes, Read(reading), Sampled);
    FatesFitSettled(s.scrapes, id, Sampled);
    LoopedInSnoc(s.samples, Looped(id, reading));
  }

  lemma {:induction false} FailureLedger(s: State, id: nat, reason: string)
    requires LedgerAgrees(s) && EndsPending(s, id, Broken(reason))
    ensures LedgerAgrees(
              s.(failures := s.failures + [ScrapeFailed(id, reason)], scrapes := Settle(s.scrapes, id, Failed)))
  {
    LedgerSettled(s.scrapes, Broken(reason), Failed);
    FatesFitSettled(s.scrapes, id, Failed);
    ScrapeFailedInSnoc(s.failures, ScrapeFailed(id, reason));
  }

  lemma {:induction false} WriteLedger(s: State, id: nat, outcome: Outcome, discard: bool)
    requires LedgerAgrees(s) && EndsPending(s, id, outcome)
    ensures LedgerAgrees(Written(s, id, outcome, discard))
  {
    if discard {
      DropLedger(s, id, outcome, Discarded);
    } else {
      match outcome {
        case Read(reading) => SampleLedger(s, id, reading);
        case Broken(reason) => FailureLedger(s, id, reason);
      }
    }
  }

  lemma {:induction false} PendingLedger(s: State, outcome: Outcome)
    requires LedgerAgrees(s)
    ensures LedgerAgrees(s.(scrapes := s.scrapes + [Scrape(outcome, Pending)]))
  {
    LedgerPending(s.scrapes, outcome);
  }

  lemma {:induction false} LoopLedger(s: State, t: Tid, pc: Pc, outcome: Outcome)
    requires LoopPc(pc) && LedgerAgrees(s) && (Filing(pc) ==> EndsPending(s, pc.scrape, pc.outcome))
    ensures LedgerAgrees(LoopMove(s, t, pc, outcome).shared)
  {
    match pc {
      case Scraping => PendingLedger(s, outcome);
      case FileSealTest(id, got) => DropLedger(s, id, got, Dropped);
      case FileWrite(id, got, discard) => WriteLedger(s, id, got, discard);
      case _ =>
    }
  }

  lemma {:induction false} ProbeLedger(s: State, probe: Reading)
    requires LedgerAgrees(s)
    ensures LedgerAgrees(s.(samples := s.samples + [Probe(probe)]))
  {
    LoopedInSnoc(s.samples, Probe(probe));
  }

  lemma {:induction false} SealLedger(s: State, alive: bool)
    requires LedgerAgrees(s)
    ensures LedgerAgrees(Sealed(s, alive))
  {
    ScrapeFailedInSnoc(s.failures, StillRunning);
    assert s.failures + [] == s.failures;
  }

  lemma {:induction false} CallerLedger(s: State, t: Tid, pc: Pc)
    requires !LoopPc(pc) && LedgerAgrees(s)
    ensures LedgerAgrees(CallerMove(s, t, pc).shared)
  {
    match pc {
      case StartFile(probe) => ProbeLedger(s, probe);
      case StopSeal(alive) => SealLedger(s, alive);
      case _ =>
    }
  }

  lemma SameLedger(s: State, s': State)
    requires LedgerAgrees(s)
    requires s' == s.(pcs := s'.pcs, paused := s'.paused, stopping := s'.stopping, thread := s'.thread)
    ensures LedgerAgrees(s')
  {
  }

  lemma {:induction false} LedgerStep(s: State, step: Step)
    requires LocksHeld(s) && OnePending(s) && LedgerAgrees(s) && Enabled(s, step)
    ensures LedgerAgrees(Apply(s, step))
  {
    var t, s', pc := step.t, Apply(s, step), At(s, step.t);
    if !step.Advance? {
      SameLedger(s, s');
    } else if pc.StartSpawn? {
      SpawnMoves(s, step);
      SameLedger(s, s');
    } else {
      AdvanceMoves(s, step);
      var move := MoveOf(s, t, step.outcome);
      if LoopPc(pc) {
        if Filing(pc) { IsHolder(s, t); }
        LoopLedger(s, t, pc, step.outcome);
      } else {
        CallerLedger(s, t, pc);
      }
      SameLedger(move.shared, s');
    }
  }

  // The seal

  /** What any step may do to the sealed data: nothing once sealed, except keep a probe. */
  ghost predicate RespectsSeal(s: State, s': State) {
    && (s.stopping ==> s'.stopping)
    && (s.results.Some? ==>
          && s'.results == s.results
          && s'.failures == s.failures
          && s'.discarded == s.discarded
          && OnlyProbesSince(s.samples, s'.samples))
  }

  lemma LoopSeal(s: State, t: Tid, pc: Pc, outcome: Outcome)
    requires LoopPc(pc) && Frozen(s) && KnowsSeal(s, pc)
    ensures var move := LoopMove(s, t, pc, outcome);
            && Frozen(move.shared) && KnowsSeal(move.shared, move.pc)
            && RespectsSeal(s, move.shared) && move.shared.results == s.results
  {
  }

  lemma CallerSeal(s: State, t: Tid, pc: Pc)
    requires !LoopPc(pc) && Frozen(s) && KnowsSeal(s, pc)
    ensures var move := CallerMove(s, t, pc);
            && Frozen(move.shared) && KnowsSeal(move.shared, move.pc)
            && RespectsSeal(s, move.shared)
            && (move.shared.results != s.results ==> pc.StopSeal?)
  {
  }

  /** What the other threads know about the seal stays true. */
  lemma {:induction false} OthersKnow(s: State, s': State, t: Tid, u: Tid)
    requires LocksHeld(s) && KnowsSeal(s, At(s, u)) && u != t
    requires RespectsSeal(s, s') && (s'.results != s.results ==> At(s, t).StopSeal?)
    ensures KnowsSeal(s', At(s, u))
  {
    assert HoldsLock(At(s, t)) <==> s.lock == Some(t);
    assert HoldsLock(At(s, u)) <==> s.lock == Some(u);
  }

  lemma {:induction false} SealStep(s: State, step: Step)
    requires LocksHeld(s) && SealHolds(s) && Enabled(s, step)
    ensures SealHolds(Apply(s, step)) && RespectsSeal(s, Apply(s, step))
  {
    var t, s', pc := step.t, Apply(s, step), At(s, step.t);
    assert KnowsSeal(s, pc);
    if !step.Advance? {
      CallMoves(s, step);
      forall u: Tid ensures KnowsSeal(s', At(s', u)) {
        assert KnowsSeal(s, At(s, u));
        if u != t { OthersKnow(s, s', t, u); }
      }
    } else if pc.StartSpawn? {
      SpawnMoves(s, step);
      forall u: Tid ensures KnowsSeal(s', At(s', u)) {
        assert KnowsSeal(s, At(s, u));
      }
    } else {
      AdvanceMoves(s, step);
      var move := MoveOf(s, t, step.outcome);
      if LoopPc(pc) { LoopSeal(s, t, pc, step.outcome); } else { CallerSeal(s, t, pc); }
      forall u: Tid ensures KnowsSeal(s', At(s', u)) {
        assert KnowsSeal(s, At(s, u));
        if u != t { OthersKnow(s, s', t, u); }
      }
    }
  }

  lemma {:induction false} InvStep(s: State, step: Step)
    requires Inv(s) && Enabled(s, step)
    ensures Inv(Apply(s, step))
  {
    LocksStep(s, step);
    PendingStep(s, step);
    LedgerStep(s, step);
    SealStep(s, step);
  }

  lemma LeadsToInv(states: seq<State>, steps: seq<Step>, i: nat)
    requires Execution(states, steps) && i < |steps| && Inv(states[i])
    ensures Inv(states[i + 1])
  {
    assert Leads(states, steps, i);
    InvStep(states[i], steps[i]);
  }

  /** Every state of every run satisfies the invariant. */
  lemma {:induction false} RunInv(states: seq<State>, steps: seq<Step>, i: nat)
    requires Execution(states, steps) && i <= |steps|
    ensures Inv(states[i])
  {
    if i == 0 {
      InitInv();
    } else {
      RunInv(states, steps, i - 1);
      LeadsToInv(states, steps, i - 1);
    }
  }

  lemma {:induction false} Taken(states: seq<State>, steps: seq<Step>, k: nat)
    requires Execution(states, steps) && k < |steps|
    ensures Inv(states[k]) && Enabled(states[k], steps[k]) && states[k + 1] == Apply(states[k], steps[k])
  {
    RunInv(states, steps, k);
    assert Leads(states, steps, k);
  }

  // ------------------------------------------------------------------
  // The pause barrier
  // ------------------------------------------------------------------

  /** Paused, with no scrape being made or filed by any thread. */
  ghost predicate Quiet(s: State) {
    s.paused && forall t: Tid :: !InScrape(At(s, t))
  }

  lemma LoopQuiet(s: State, t: Tid, pc: Pc, outcome: Outcome)
    requires LoopPc(pc) && s.paused && !InScrape(pc)
    ensures var move := LoopMove(s, t, pc, outcome);
            move.shared.paused && !InScrape(move.pc) && move.shared.scrapes == s.scrapes
  {
  }

  lemma CallerQuiet(s: State, t: Tid, pc: Pc)
    requires !LoopPc(pc)
    ensures var move := CallerMove(s, t, pc);
            move.shared.paused == s.paused && !InScrape(move.pc) && move.shared.scrapes == s.scrapes
  {
  }

  lemma {:induction false} QuietStep(s: State, step: Step)
    requires Quiet(s) && Enabled(s, step) && !step.CallResume?
    ensures Quiet(Apply(s, step)) && Apply(s, step).scrapes == s.scrapes
  {
    var t, s', pc := step.t, Apply(s, step), At(s, step.t);
    assert !InScrape(pc);
    if !step.Advance? {
      CallMoves(s, step);
    } else if pc.StartSpawn? {
      SpawnMoves(s, step);
    } else {
      AdvanceMoves(s, step);
      if LoopPc(pc) { LoopQuiet(s, t, pc, step.outcome); } else { CallerQuiet(s, t, pc); }
    }
    forall u: Tid ensures !InScrape(At(s', u)) {
      assert !InScrape(At(s, u));
    }
  }

  ghost predicate NoResume(steps: seq<Step>, from: nat, to: nat) {
    forall k :: from <= k < to && k < |steps| ==> !steps[k].CallResume?
  }

  lemma {:induction false} QuietUntilResume(states: seq<State>, steps: seq<Step>, m: nat, j: nat)
    requires Execution(states, steps) && m <= j <= |steps| && NoResume(steps, m, j)
    requires Quiet(states[m])
    ensures Quiet(states[j]) && states[j].scrapes == states[m].scrapes
  {
    if m < j {
      QuietUntilResume(states, steps, m, j - 1);
      assert Leads(states, steps, j - 1);
      QuietStep(states[j - 1], steps[j - 1]);
    }
  }

  lemma LoopKeepsFlag(s: State, t: Tid, pc: Pc, outcome: Outcome)
    requires LoopPc(pc)
    ensures LoopMove(s, t, pc, outcome).shared.paused == s.paused
  {
  }

  lemma {:induction false} AdvanceKeepsFlag(s: State, step: Step)
    requires Enabled(s, step) && step.Advance?
    ensures Apply(s, step).paused == s.paused
  {
    var pc := At(s, step.t);
    if !pc.StartSpawn? {
      AdvanceMoves(s, step);
      if LoopPc(pc) { LoopKeepsFlag(s, step.t, pc, step.outcome); } else { CallerQuiet(s, step.t, pc); }
    }
  }

  lemma {:induction false} PausedStep(s: State, step: Step)
    requires Enabled(s, step) && !step.CallResume? && (s.paused || step.CallPause?)
    ensures Apply(s, step).paused
  {
    if step.Advance? {
      AdvanceKeepsFlag(s, step);
    }
  }

  lemma {:induction false} PausedUntilResume(states: seq<State>, steps: seq<Step>, a: nat, m: nat)
    requires Execution(states, steps) && a < m <= |steps| && steps[a].CallPause? && NoResume(steps, a + 1, m)
    ensures states[m].paused
  {
    if a + 1 < m {
      PausedUntilResume(states, steps, a, m - 1);
    }
    assert Leads(states, steps, m - 1);
    PausedStep(states[m - 1], steps[m - 1]);
  }

  /**
    The barrier.  Some thread calls `pause` (step `a`) and a `pause` passes the in-flight lock and is
    about to return (state `m`); until somebody resumes, no scrape is in flight in any thread, and
    none has ended since.
   */
  lemma {:induction false} PauseBarrier(states: seq<State>, steps: seq<Step>, a: nat, m: nat, j: nat, t: Tid)
    requires Execution(states, steps) && a < m <= j <= |steps|
    requires steps[a].CallPause? && At(states[m], t).PauseRelease?
    requires NoResume(steps, a + 1, j)
    ensures forall u: Tid :: !InScrape(At(states[j], u))
    ensures states[j].scrapes == states[m].scrapes
  {
    RunInv(states, steps, m);
    PausedUntilResume(states, steps, a, m);
    forall u: Tid ensures !InScrape(At(states[m], u)) {
      assert HoldsInFlight(At(states[m], u)) <==> states[m].inFlight == Some(u);
      assert HoldsInFlight(At(states[m], t)) <==> states[m].inFlight == Some(t);
    }
    QuietUntilResume(states, steps, m, j);
  }

  // A scrape that a pause interrupts is never recorded

  ghost predicate Unrecorded(scrapes: seq<Scrape>, base: nat) {
    forall i :: base <= i < |scrapes| ==> !scrapes[i].fate.Sampled? && !scrapes[i].fate.Failed?
  }

  /** No thread is about to record a scrape numbered `base` or later. */
  ghost predicate Harmless(pc: Pc, base: nat) {
    pc.FileWrite? && pc.scrape >= base ==> pc.discard
  }

  lemma LoopUnrecorded(s: State, t: Tid, pc: Pc, outcome: Outcome, base: nat)
    requires LoopPc(pc) && s.paused && Unrecorded(s.scrapes, base) && Harmless(pc, base)
    ensures var move := LoopMove(s, t, pc, outcome);
            Unrecorded(move.shared.scrapes, base) && Harmless(move.pc, base)
  {
  }

  lemma {:induction false} UnrecordedStep(s: State, step: Step, base: nat)
    requires Enabled(s, step) && !step.CallResume? && s.paused
    requires Unrecorded(s.scrapes, base) && (forall t: Tid :: Harmless(At(s, t), base))
    ensures var s' := Apply(s, step);
            Unrecorded(s'.scrapes, base) && forall t: Tid :: Harmless(At(s', t), base)
  {
    var t, s', pc := step.t, Apply(s, step), At(s, step.t);
    assert Harmless(pc, base);
    if !step.Advance? {
      CallMoves(s, step);
    } else if pc.StartSpawn? {
      SpawnMoves(s, step);
    } else {
      AdvanceMoves(s, step);
      if LoopPc(pc) { LoopUnrecorded(s, t, pc, step.outcome, base); } else { CallerQuiet(s, t, pc); }
    }
    forall u: Tid ensures Harmless(At(s', u), base) {
      assert Harmless(At(s, u), base);
    }
  }

  lemma {:induction false} UnrecordedWhilePaused(states: seq<State>, steps: seq<Step>, a: nat, j: nat)
    requires Execution(states, steps) && a < j <= |steps|
    requires steps[a].CallPause? && NoResume(steps, a + 1, j)
    ensures Unrecorded(states[j].scrapes, |states[a].scrapes|)
    ensures forall t: Tid :: Harmless(At(states[j], t), |states[a].scrapes|)
  {
    var base := |states[a].scrapes|;
    if a + 1 == j {
      RunInv(states, steps, a);
      assert Leads(states, steps, a);
      CallMoves(states[a], steps[a]);
      forall t: Tid ensures Harmless(At(states[j], t), base) {
        if At(states[a], t).FileWrite? { IsHolder(states[a], t); }
      }
    } else {
      UnrecordedWhilePaused(states, steps, a, j - 1);
      assert Leads(states, steps, j - 1);
      PausedUntilResume(states, steps, a, j - 1);
      UnrecordedStep(states[j - 1], steps[j - 1], base);
    }
  }

  /** A scrape that ends after `pause` was called is not recorded, in either list, before a resume. */
  lemma {:induction false} InterruptedNeverRecorded(states: seq<State>, steps: seq<Step>, a: nat, j: nat, id: nat)
    requires Execution(states, steps) && a < j <= |steps|
    requires steps[a].CallPause? && NoResume(steps, a + 1, j)
    requires |states[a].scrapes| <= id < |states[j].scrapes|
    ensures states[j].scrapes[id].fate in {Pending, Discarded, Dropped}
    ensures forall e :: e in states[j].samples && e.Looped? ==> e.scrape != id
    ensures forall e :: e in states[j].failures && e.ScrapeFailed? ==> e.scrape != id
  {
    UnrecordedWhilePaused(states, steps, a, j);
    RunInv(states, steps, j);
    var s := states[j];
    forall e | e in s.samples && e.Looped? ensures e.scrape != id {
      LoopedInKeeps(s.samples, e);
      SampledOfFate(s.scrapes, e);
    }
    forall e | e in s.failures && e.ScrapeFailed? ensures e.scrape != id {
      ScrapeFailedInKeeps(s.failures, e);
      FailedOfFate(s.scrapes, e);
    }
  }

  lemma {:induction false} LoopedInKeeps(samples: seq<SampleEntry>, e: SampleEntry)
    requires e in samples && e.Looped?
    ensures e in LoopedIn(samples)
  {
    if samples[|samples| - 1] != e {
      LoopedInKeeps(samples[..|samples| - 1], e);
    }
  }

  lemma {:induction false} ScrapeFailedInKeeps(failures: seq<FailureEntry>, e: FailureEntry)
    requires e in failures && e.ScrapeFailed?
    ensures e in ScrapeFailedIn(failures)
  {
    if failures[|failures| - 1] != e {
      ScrapeFailedInKeeps(failures[..|failures| - 1], e);
    }
  }

  lemma {:induction false} SampledOfFate(scrapes: seq<Scrape>, e: SampleEntry)
    requires e in SampledOf(scrapes)
    ensures e.Looped? && e.scrape < |scrapes| && scrapes[e.scrape] == Scrape(Read(e.reading), Sampled)
  {
    var n := |scrapes| - 1;
    if e in SampledOf(scrapes[..n]) {
      SampledOfFate(scrapes[..n], e);
    }
  }

  lemma {:induction false} FailedOfFate(scrapes: seq<Scrape>, e: FailureEntry)
    requires e in FailedOf(scrapes)
    ensures e.ScrapeFailed? && e.scrape < |scrapes| && scrapes[e.scrape] == Scrape(Broken(e.reason), Failed)
  {
    var n := |scrapes| - 1;
    if e in FailedOf(scrapes[..n]) {
      FailedOfFate(scrapes[..n], e);
    }
  }

  // ------------------------------------------------------------------
  // Every scrape is counted exactly once
  // ------------------------------------------------------------------

  lemma {:induction false} FatesPartition(scrapes: seq<Scrape>)
    requires forall i :: 0 <= i < |scrapes| ==>
               && (scrapes[i].fate == Sampled ==> scrapes[i].outcome.Read?)
               && (scrapes[i].fate == Failed ==> scrapes[i].outcome.Broken?)
    ensures |scrapes| == |SampledOf(scrapes)| + |FailedOf(scrapes)| + CountFate(scrapes, Discarded)
                         + CountFate(scrapes, Dropped) + CountFate(scrapes, Pending)
  {
    if scrapes != [] {
      FatesPartition(scrapes[..|scrapes| - 1]);
    }
  }

  // What decided a fate: the flags its thread read when it came to file the scrape

  /** In `s` a thread filing scrape `id` reads the flags that give it this fate. */
  predicate Decides(s: State, pc: Pc, id: nat, fate: Fate) {
    if fate.Dropped? then pc.FileSealTest? && pc.scrape == id && s.results.Some?
    else pc.FilePauseTest? && pc.scrape == id && s.results.None? && (s.paused <==> fate.Discarded?)
  }

  /** `scrapes` come from `s` by a step at `pc` that settles `id`, if at all, as its thread decided. */
  predicate SettlesRight(s: State, pc: Pc, scrapes: seq<Scrape>, id: nat) {
    id < |scrapes| && !scrapes[id].fate.Pending? ==>
      && id < |s.scrapes|
      && (|| scrapes[id] == s.scrapes[id]
          || (scrapes[id].fate.Dropped? && Decides(s, pc, id, Dropped))
          || (&& pc.FileWrite? && pc.scrape == id && !scrapes[id].fate.Dropped?
              && (scrapes[id].fate.Discarded? <==> pc.discard)))
  }

  lemma LoopSettles(s: State, t: Tid, pc: Pc, outcome: Outcome, id: nat)
    requires LoopPc(pc) && (Filing(pc) ==> EndsPending(s, pc.scrape, pc.outcome))
    ensures var scrapes := LoopMove(s, t, pc, outcome).shared.scrapes;
            |s.scrapes| <= |scrapes| && SettlesRight(s, pc, scrapes, id)
  {
  }

  lemma {:induction false} StepSettles(s: State, step: Step, id: nat)
    requires Inv(s) && Enabled(s, step)
    ensures |s.scrapes| <= |Apply(s, step).scrapes| && SettlesRight(s, At(s, step.t), Apply(s, step).scrapes, id)
  {
    var t, pc := step.t, At(s, step.t);
    if step.Advance? && !pc.StartSpawn? {
      AdvanceMoves(s, step);
      if LoopPc(pc) {
        if Filing(pc) { IsHolder(s, t); }
        LoopSettles(s, t, pc, step.outcome, id);
      } else {
        CallerPending(s, t, pc);
      }
    }
  }

  lemma MovesToWrite(s: State, t: Tid, pc: Pc, outcome: Outcome)
    requires LoopPc(pc)
    ensures var pc' := LoopMove(s, t, pc, outcome).pc;
            pc'.FileWrite? && !pc.LoopDone? ==>
              pc.FilePauseTest? && pc.scrape == pc'.scrape && s.paused == pc'.discard
  {
  }

  /** A thread comes to `FileWrite` only from the pause test, and carries what it read there. */
  lemma {:induction false} StepToWrite(s: State, step: Step, u: Tid)
    requires Inv(s) && Enabled(s, step) && At(Apply(s, step), u).FileWrite?
    ensures var pc, pc' := At(s, u), At(Apply(s, step), u);
            pc == pc' || (pc.FilePauseTest? && pc.scrape == pc'.scrape && s.paused == pc'.discard && s.results.None?)
  {
    var pc := At(s, step.t);
    assert KnowsSeal(s, At(s, u));
    if !step.Advance? {
      CallMoves(s, step);
    } else if pc.StartSpawn? {
      SpawnMoves(s, step);
    } else {
      AdvanceMoves(s, step);
      if LoopPc(pc) { MovesToWrite(s, step.t, pc, step.outcome); } else { CallerPending(s, step.t, pc); }
    }
  }

  lemma {:induction false} WriteCame(states: seq<State>, steps: seq<Step>, k: nat, t: Tid)
    requires Execution(states, steps) && k < |steps| && At(states[k + 1], t).FileWrite?
    ensures var pc, pc' := At(states[k], t), At(states[k + 1], t);
      || pc == pc'
      || (pc.FilePauseTest? && pc.scrape == pc'.scrape && states[k].paused == pc'.discard && states[k].results.None?)
  {
    Taken(states, steps, k);
    StepToWrite(states[k], steps[k], t);
  }

  lemma {:induction false} WriteDecided(states: seq<State>, steps: seq<Step>, j: nat, t: Tid) returns (p: nat)
    requires Execution(states, steps) && j <= |steps| && At(states[j], t).FileWrite?
    ensures p < j && At(states[p], t).FilePauseTest? && At(states[p], t).scrape == At(states[j], t).scrape
    ensures states[p].results.None? && states[p].paused == At(states[j], t).discard
  {
    assert j != 0;
    p := j - 1;
    WriteCame(states, steps, p, t);
    if At(states[p], t).FileWrite? {
      p := WriteDecided(states, steps, p, t);
    }
  }

  /**
    The fate of every scrape was decided by the flags as its thread `t` read them at one state `p`,
    holding the list lock: dropped if the results were sealed, otherwise discarded if the sampler was
    paused, otherwise recorded as a sample or as a failure.
   */
  lemma {:induction false} FateDecided(states: seq<State>, steps: seq<Step>, j: nat, id: nat) returns (p: nat, t: Tid)
    requires Execution(states, steps) && j <= |steps|
    requires id < |states[j].scrapes| && !states[j].scrapes[id].fate.Pending?
    ensures p < j && states[p].lock == Some(t) && Decides(states[p], At(states[p], t), id, states[j].scrapes[id].fate)
  {
    Taken(states, steps, j - 1);
    StepSettles(states[j - 1], steps[j - 1], id);
    if states[j].scrapes[id] == states[j - 1].scrapes[id] {
      p, t := FateDecided(states, steps, j - 1, id);
    } else {
      t := steps[j - 1].t;
      p := j - 1;
      if At(states[p], t).FileWrite? {
        p := WriteDecided(states, steps, j - 1, t);
        RunInv(states, steps, p);
      }
      assert HoldsLock(At(states[p], t)) <==> states[p].lock == Some(t);
    }
  }

  // Hence: no drop before the seal, no discard without a pause, and otherwise everything is recorded

  ghost predicate NoPause(steps: seq<Step>, from: nat, to: nat) {
    forall k :: from <= k < to && k < |steps| ==> !steps[k].CallPause?
  }

  lemma {:induction false} UnpausedStep(s: State, step: Step)
    requires Enabled(s, step) && !step.CallPause? && !s.paused
    ensures !Apply(s, step).paused
  {
    if step.Advance? {
      AdvanceKeepsFlag(s, step);
    }
  }

  lemma {:induction false} UnpausedUntilPause(states: seq<State>, steps: seq<Step>, m: nat, j: nat)
    requires Execution(states, steps) && m <= j <= |steps| && NoPause(steps, m, j) && !states[m].paused
    ensures !states[j].paused
  {
    if m < j {
      UnpausedUntilPause(states, steps, m, j - 1);
      assert Leads(states, steps, j - 1);
      UnpausedStep(states[j - 1], steps[j - 1]);
    }
  }

  lemma {:induction false} StepKeepsScrapes(states: seq<State>, steps: seq<Step>, k: nat)
    requires Execution(states, steps) && k < |steps|
    ensures |states[k].scrapes| <= |states[k + 1].scrapes|
  {
    Taken(states, steps, k);
    StepSettles(states[k], steps[k], 0);
  }

  lemma {:induction false} ScrapesGrow(states: seq<State>, steps: seq<Step>, i: nat, j: nat)
    requires Execution(states, steps) && i <= j <= |steps|
    ensures |states[i].scrapes| <= |states[j].scrapes|
  {
    if i < j {
      ScrapesGrow(states, steps, i, j - 1);
      StepKeepsScrapes(states, steps, j - 1);
    }
  }

  /** A thread filing scrape `id`, which ended after state `m`, does so after `m`. */
  lemma {:induction false} FiledAfter(states: seq<State>, steps: seq<Step>, m: nat, p: nat, t: Tid)
    requires Execution(states, steps) && m <= |steps| && p <= |steps|
    requires Filing(At(states[p], t)) && |states[m].scrapes| <= At(states[p], t).scrape
    ensures m < p
  {
    RunInv(states, steps, p);
    IsHolder(states[p], t);
    if p <= m {
      ScrapesGrow(states, steps, p, m);
    }
  }

  /** Of the scrapes that end after state `m`, none is discarded, or about to be, until somebody calls `pause`. */
  lemma {:induction false} UnpausedNeverDiscards(states: seq<State>, steps: seq<Step>, m: nat, j: nat)
    requires Execution(states, steps) && m <= j <= |steps| && NoPause(steps, m, j) && !states[m].paused
    ensures forall id :: |states[m].scrapes| <= id < |states[j].scrapes| ==> !states[j].scrapes[id].fate.Discarded?
    ensures forall t: Tid :: At(states[j], t).FileWrite? && At(states[j], t).discard ==>
                               At(states[j], t).scrape < |states[m].scrapes|
  {
    forall id | |states[m].scrapes| <= id < |states[j].scrapes| && states[j].scrapes[id].fate.Discarded?
      ensures false
    {
      var p, t := FateDecided(states, steps, j, id);
      FiledAfter(states, steps, m, p, t);
      UnpausedUntilPause(states, steps, m, p);
    }
    forall t: Tid | At(states[j], t).FileWrite? && At(states[j], t).discard
      ensures At(states[j], t).scrape < |states[m].scrapes|
    {
      var p := WriteDecided(states, steps, j, t);
      if |states[m].scrapes| <= At(states[j], t).scrape {
        FiledAfter(states, steps, m, p, t);
        UnpausedUntilPause(states, steps, m, p);
      }
    }
  }

  lemma {:induction false} UnsealedBefore(states: seq<State>, steps: seq<Step>, i: nat, j: nat)
    requires Execution(states, steps) && i <= j <= |steps| && states[j].results.None?
    ensures states[i].results.None?
  {
    if states[i].results.Some? {
      SealedForever(states, steps, i, j);
    }
  }

  /** Nothing is dropped before the seal. */
  lemma {:induction false} UnsealedNeverDrops(states: seq<State>, steps: seq<Step>, j: nat)
    requires Execution(states, steps) && j <= |steps| && states[j].results.None?
    ensures forall id :: 0 <= id < |states[j].scrapes| ==> !states[j].scrapes[id].fate.Dropped?
  {
    forall id | 0 <= id < |states[j].scrapes| && states[j].scrapes[id].fate.Dropped?
      ensures false
    {
      var p, t := FateDecided(states, steps, j, id);
      UnsealedBefore(states, steps, p, j);
    }
  }

  /** Once a scrape has its fate it keeps it. */
  lemma {:induction false} FateKept(states: seq<State>, steps: seq<Step>, i: nat, j: nat, id: nat)
    requires Execution(states, steps) && i <= j <= |steps|
    requires id < |states[i].scrapes| && !states[i].scrapes[id].fate.Pending?
    ensures id < |states[j].scrapes| && states[j].scrapes[id] == states[i].scrapes[id]
  {
    if i < j {
      FateKept(states, steps, i, j - 1, id);
      Taken(states, steps, j - 1);
      SettledStays(states[j - 1], steps[j - 1], id);
    }
  }

  lemma LoopSettledStays(s: State, t: Tid, pc: Pc, outcome: Outcome, id: nat)
    requires LoopPc(pc) && (Filing(pc) ==> EndsPending(s, pc.scrape, pc.outcome))
    requires id < |s.scrapes| && !s.scrapes[id].fate.Pending?
    ensures var scrapes := LoopMove(s, t, pc, outcome).shared.scrapes;
            id < |scrapes| && scrapes[id] == s.scrapes[id]
  {
  }

  lemma {:induction false} SettledStays(s: State, step: Step, id: nat)
    requires Inv(s) && Enabled(s, step) && id < |s.scrapes| && !s.scrapes[id].fate.Pending?
    ensures var scrapes := Apply(s, step).scrapes; id < |scrapes| && scrapes[id] == s.scrapes[id]
  {
    var t, pc := step.t, At(s, step.t);
    if step.Advance? && !pc.StartSpawn? {
      AdvanceMoves(s, step);
      if LoopPc(pc) {
        if Filing(pc) { IsHolder(s, t); }
        LoopSettledStays(s, t, pc, step.outcome, id);
      } else {
        CallerPending(s, t, pc);
      }
    }
  }

  /**
    After the seal (step `k`), the scrapes that are dropped are exactly those that had not been filed
    by then: nothing filed before is lost, and nothing filed after is heard.
   */
  lemma {:induction false} DroppedIffAfterSeal(states: seq<State>, steps: seq<Step>, k: nat, j: nat, id: nat)
    requires Execution(states, steps) && k < j <= |steps|
    requires states[k].results.None? && states[k + 1].results.Some?
    requires id < |states[j].scrapes| && !states[j].scrapes[id].fate.Pending?
    ensures states[j].scrapes[id].fate.Dropped? <==>
              |states[k].scrapes| <= id || states[k].scrapes[id].fate.Pending?
  {
    if id < |states[k].scrapes| && !states[k].scrapes[id].fate.Pending? {
      FateKept(states, steps, k, j, id);
      UnsealedNeverDrops(states, steps, k);
    } else {
      var p, t := FateDecided(states, steps, j, id);
      if !states[j].scrapes[id].fate.Dropped? {
        UnsealedReader(states, steps, k, p);
        SealFindsItFiled(states, steps, k, p, t);
      }
    }
  }

  lemma {:induction false} UnsealedReader(states: seq<State>, steps: seq<Step>, k: nat, p: nat)
    requires Execution(states, steps) && k < |steps| && p <= |steps|
    requires states[k + 1].results.Some? && states[p].results.None?
    ensures p <= k
  {
    if k + 1 <= p {
      SealedForever(states, steps, k + 1, p);
    }
  }

  /** The seal is taken under the list lock, so a thread past the seal test has filed its scrape by then. */
  lemma {:induction false} SealFindsItFiled(states: seq<State>, steps: seq<Step>, k: nat, p: nat, t: Tid)
    requires Execution(states, steps) && p <= k < |steps| && At(states[p], t).FilePauseTest?
    requires states[k].results.None? && states[k + 1].results.Some?
    ensures var id := At(states[p], t).scrape;
            id < |states[k].scrapes| && !states[k].scrapes[id].fate.Pending?
  {
    var id := At(states[p], t).scrape;
    PastSealTest(states, steps, p, k, t);
    if At(states[k], t).FilePauseTest? || At(states[k], t).FileWrite? {
      Taken(states, steps, k);
      SealTakesLock(states[k], steps[k], t);
    }
  }

  /** A thread past the seal test is still there, or has filed its scrape. */
  ghost predicate FiledOrFiling(s: State, t: Tid, id: nat) {
    || ((At(s, t).FilePauseTest? || At(s, t).FileWrite?) && At(s, t).scrape == id)
    || (id < |s.scrapes| && !s.scrapes[id].fate.Pending?)
  }

  lemma LoopFiles(s: State, t: Tid, pc: Pc, outcome: Outcome)
    requires (pc.FilePauseTest? || pc.FileWrite?) && EndsPending(s, pc.scrape, pc.outcome)
    ensures var move := LoopMove(s, t, pc, outcome);
      || (move.pc.FileWrite? && move.pc.scrape == pc.scrape)
      || (pc.scrape < |move.shared.scrapes| && !move.shared.scrapes[pc.scrape].fate.Pending?)
  {
  }

  lemma {:induction false} FilesStep(s: State, step: Step, t: Tid, id: nat)
    requires Inv(s) && Enabled(s, step) && FiledOrFiling(s, t, id)
    ensures FiledOrFiling(Apply(s, step), t, id)
  {
    if id < |s.scrapes| && !s.scrapes[id].fate.Pending? {
      SettledStays(s, step, id);
    } else if !step.Advance? {
      CallMoves(s, step);
    } else if At(s, step.t).StartSpawn? {
      SpawnMoves(s, step);
    } else {
      AdvanceMoves(s, step);
      if step.t == t {
        IsHolder(s, t);
        LoopFiles(s, t, At(s, t), step.outcome);
      }
    }
  }

  lemma {:induction false} StillFiled(states: seq<State>, steps: seq<Step>, k: nat, t: Tid, id: nat)
    requires Execution(states, steps) && k < |steps| && FiledOrFiling(states[k], t, id)
    ensures FiledOrFiling(states[k + 1], t, id)
  {
    Taken(states, steps, k);
    FilesStep(states[k], steps[k], t, id);
  }

  lemma {:induction false} PastSealTest(states: seq<State>, steps: seq<Step>, p: nat, k: nat, t: Tid)
    requires Execution(states, steps) && p <= k <= |steps| && At(states[p], t).FilePauseTest?
    ensures FiledOrFiling(states[k], t, At(states[p], t).scrape)
  {
    if p < k {
      PastSealTest(states, steps, p, k - 1, t);
      StillFiled(states, steps, k - 1, t, At(states[p], t).scrape);
    }
  }

  /** The step that seals is that of a `stop` at the seal, and changes nothing but the note. */
  lemma {:induction false} SealingStep(s: State, step: Step)
    requires Inv(s) && Enabled(s, step) && s.results.None? && Apply(s, step).results.Some?
    ensures step.Advance? && At(s, step.t).StopSeal?
    ensures Apply(s, step).failures == s.failures + if At(s, step.t).alive then [StillRunning] else []
    ensures Apply(s, step).results == Some(Snapshot(s.samples, Apply(s, step).failures, s.discarded))
  {
    var pc := At(s, step.t);
    assert KnowsSeal(s, pc);
    if step.Advance? && !pc.StartSpawn? {
      AdvanceMoves(s, step);
      if LoopPc(pc) { LoopSeal(s, step.t, pc, step.outcome); } else { CallerSeal(s, step.t, pc); }
    }
  }

  lemma {:induction false} SealTakesLock(s: State, step: Step, t: Tid)
    requires Inv(s) && Enabled(s, step) && s.results.None? && Apply(s, step).results.Some?
    ensures !At(s, t).FilePauseTest? && !At(s, t).FileWrite?
  {
    SealingStep(s, step);
    assert HoldsLock(At(s, t)) <==> s.lock == Some(t);
    assert HoldsLock(At(s, step.t)) <==> s.lock == Some(step.t);
  }

  lemma {:induction false} CountNone(scrapes: seq<Scrape>, fate: Fate)
    requires forall i :: 0 <= i < |scrapes| ==> scrapes[i].fate != fate
    ensures CountFate(scrapes, fate) == 0
  {
    if scrapes != [] {
      CountNone(scrapes[..|scrapes| - 1], fate);
    }
  }

  /**
    In every state of every run, each loop scrape that has ended is in exactly one of the samples,
    the failures, the discards and the drops, except for at most one that is being filed; and the
    recorded entries are those scrapes in the order in which they ended.  Nothing is dropped until the
    results are sealed, and nothing discarded until somebody has called `pause`.
   */
  lemma {:induction false} EveryScrapeCountedOnce(states: seq<State>, steps: seq<Step>, i: nat)
    requires Execution(states, steps) && i <= |steps|
    ensures var s := states[i];
            && LoopedIn(s.samples) == SampledOf(s.scrapes)
            && ScrapeFailedIn(s.failures) == FailedOf(s.scrapes)
            && |s.scrapes| == |LoopedIn(s.samples)| + |ScrapeFailedIn(s.failures)| + s.discarded
                              + CountFate(s.scrapes, Dropped) + if Filing(Holder(s)) then 1 else 0
    ensures states[i].results.None? ==> CountFate(states[i].scrapes, Dropped) == 0
    ensures NoPause(steps, 0, i) ==> states[i].discarded == 0
  {
    RunInv(states, steps, i);
    var s := states[i];
    FatesPartition(s.scrapes);
    if Filing(Holder(s)) {
      CountNone(s.scrapes[..|s.scrapes| - 1], Pending);
    } else {
      CountNone(s.scrapes, Pending);
    }
    if s.results.None? {
      UnsealedNeverDrops(states, steps, i);
      CountNone(s.scrapes, Dropped);
    }
    if NoPause(steps, 0, i) {
      UnpausedNeverDiscards(states, steps, 0, i);
      CountNone(s.scrapes, Discarded);
    }
  }

  lemma {:induction false} SampledOfHas(scrapes: seq<Scrape>, id: nat)
    requires id < |scrapes| && scrapes[id].fate.Sampled? && scrapes[id].outcome.Read?
    ensures Looped(id, scrapes[id].outcome.reading) in SampledOf(scrapes)
  {
    var n := |scrapes| - 1;
    if id < n {
      SampledOfHas(scrapes[..n], id);
    }
  }

  lemma {:induction false} FailedOfHas(scrapes: seq<Scrape>, id: nat)
    requires id < |scrapes| && scrapes[id].fate.Failed? && scrapes[id].outcome.Broken?
    ensures ScrapeFailed(id, scrapes[id].outcome.reason) in FailedOf(scrapes)
  {
    var n := |scrapes| - 1;
    if id < n {
      FailedOfHas(scrapes[..n], id);
    }
  }

  lemma {:induction false} LoopedInFrom(samples: seq<SampleEntry>, e: SampleEntry)
    requires e in LoopedIn(samples)
    ensures e in samples
  {
    if e in LoopedIn(samples[..|samples| - 1]) {
      LoopedInFrom(samples[..|samples| - 1], e);
    }
  }

  lemma {:induction false} ScrapeFailedInFrom(failures: seq<FailureEntry>, e: FailureEntry)
    requires e in ScrapeFailedIn(failures)
    ensures e in failures
  {
    if e in ScrapeFailedIn(failures[..|failures| - 1]) {
      ScrapeFailedInFrom(failures[..|failures| - 1], e);
    }
  }

  /** The entry by which a scrape that ended this way is recorded is in its list. */
  ghost predicate Recorded(s: State, id: nat, outcome: Outcome) {
    match outcome
    case Read(reading) => Looped(id, reading) in s.samples
    case Broken(reason) => ScrapeFailed(id, reason) in s.failures
  }

  /** Until a seal or a pause, every scrape that has ended and is not being filed is recorded. */
  lemma {:induction false} RecordedUntilPauseOrSeal(states: seq<State>, steps: seq<Step>, m: nat, j: nat, id: nat)
    requires Execution(states, steps) && m <= j <= |steps| && NoPause(steps, m, j) && !states[m].paused
    requires states[j].results.None?
    requires |states[m].scrapes| <= id < |states[j].scrapes| && !states[j].scrapes[id].fate.Pending?
    ensures Recorded(states[j], id, states[j].scrapes[id].outcome)
  {
    RunInv(states, steps, j);
    UnsealedNeverDrops(states, steps, j);
    UnpausedNeverDiscards(states, steps, m, j);
    var s := states[j];
    match s.scrapes[id].outcome {
      case Read(reading) =>
        SampledOfHas(s.scrapes, id);
        LoopedInFrom(s.samples, Looped(id, reading));
      case Broken(reason) =>
        FailedOfHas(s.scrapes, id);
        ScrapeFailedInFrom(s.failures, ScrapeFailed(id, reason));
    }
  }

  // ------------------------------------------------------------------
  // The seal
  // ------------------------------------------------------------------

  lemma {:induction false} ProbesTransitive(a: seq<SampleEntry>, b: seq<SampleEntry>, c: seq<SampleEntry>)
    requires OnlyProbesSince(a, b) && OnlyProbesSince(b, c)
    ensures OnlyProbesSince(a, c)
  {
    forall i | |a| <= i < |c| ensures c[i].Probe? {
      if i < |b| { assert b[i] == c[i]; }
    }
  }

  lemma {:induction false} RespectsTransitive(a: State, b: State, c: State)
    requires a.results.Some? && RespectsSeal(a, b) && RespectsSeal(b, c)
    ensures RespectsSeal(a, c)
  {
    ProbesTransitive(a.samples, b.samples, c.samples);
  }

  lemma {:induction false} NextRespects(states: seq<State>, steps: seq<Step>, j: nat)
    requires Execution(states, steps) && j < |steps|
    ensures RespectsSeal(states[j], states[j + 1])
  {
    RunInv(states, steps, j);
    assert Leads(states, steps, j);
    SealStep(states[j], steps[j]);
  }

  lemma {:induction false} SealedForever(states: seq<State>, steps: seq<Step>, i: nat, j: nat)
    requires Execution(states, steps) && i <= j <= |steps| && states[i].results.Some?
    ensures RespectsSeal(states[i], states[j])
  {
    if i < j {
      SealedForever(states, steps, i, j - 1);
      NextRespects(states, steps, j - 1);
      RespectsTransitive(states[i], states[j - 1], states[j]);
    }
  }

  /**
    Once a `stop` is about to return, failures and discards never change again, whatever thread is
    still running, and the samples change by nothing but probes kept by `start`.
   */
  lemma {:induction false} StopFreezes(states: seq<State>, steps: seq<Step>, i: nat, j: nat, t: Tid)
    requires Execution(states, steps) && i <= j <= |steps| && At(states[i], t).StopReturn?
    ensures var snapshot := At(states[i], t).result;
            && states[j].results == Some(snapshot)
            && states[j].failures == snapshot.failures
            && states[j].discarded == snapshot.discarded
            && OnlyProbesSince(snapshot.samples, states[j].samples)
  {
    RunInv(states, steps, i);
    assert KnowsSeal(states[i], At(states[i], t));
    SealedForever(states, steps, i, j);
    RunInv(states, steps, j);
  }

  /** Every `stop` of a run returns the same snapshot, concurrent or later. */
  lemma {:induction false} StopsAgree(states: seq<State>, steps: seq<Step>, i: nat, t: Tid, j: nat, u: Tid)
    requires Execution(states, steps) && i <= |steps| && j <= |steps|
    requires At(states[i], t).StopReturn? && At(states[j], u).StopReturn?
    ensures At(states[i], t).result == At(states[j], u).result
  {
    StopFreezes(states, steps, i, if i <= j then j else i, t);
    StopFreezes(states, steps, j, if i <= j then j else i, u);
  }

  // The note of a thread that outlived the join

  predicate ThreadAlive(s: State) {
    s.thread.Some? && !At(s, s.thread.value).LoopDone?
  }

  /** A thread carries `alive` from the join. */
  lemma {:induction false} StepToSeal(s: State, step: Step, u: Tid)
    requires Enabled(s, step) && (At(Apply(s, step), u).StopRelock? || At(Apply(s, step), u).StopSeal?)
    ensures var pc, pc' := At(s, u), At(Apply(s, step), u);
      || ((pc.StopRelock? || pc.StopSeal?) && pc.alive == pc'.alive)
      || (pc.StopJoin? && pc'.alive == ThreadAlive(s))
  {
    if !step.Advance? {
      CallMoves(s, step);
    } else if At(s, step.t).StartSpawn? {
      SpawnMoves(s, step);
    } else {
      AdvanceMoves(s, step);
    }
  }

  lemma {:induction false} Joined(states: seq<State>, steps: seq<Step>, k: nat, t: Tid) returns (p: nat)
    requires Execution(states, steps) && k <= |steps| && (At(states[k], t).StopRelock? || At(states[k], t).StopSeal?)
    ensures p < k && At(states[p], t).StopJoin? && At(states[k], t).alive == ThreadAlive(states[p])
  {
    assert Leads(states, steps, k - 1);
    StepToSeal(states[k - 1], steps[k - 1], t);
    if At(states[k - 1], t).StopJoin? {
      p := k - 1;
    } else {
      p := Joined(states, steps, k - 1, t);
    }
  }

  lemma LoopNote(s: State, t: Tid, pc: Pc, outcome: Outcome)
    requires LoopPc(pc) && StillRunning !in s.failures
    ensures StillRunning !in LoopMove(s, t, pc, outcome).shared.failures
  {
  }

  lemma {:induction false} NoNoteStep(s: State, step: Step)
    requires Enabled(s, step) && StillRunning !in s.failures && Apply(s, step).results.None?
    ensures StillRunning !in Apply(s, step).failures
  {
    var pc := At(s, step.t);
    if step.Advance? && !pc.StartSpawn? {
      AdvanceMoves(s, step);
      if LoopPc(pc) { LoopNote(s, step.t, pc, step.outcome); }
    }
  }

  lemma {:induction false} NoNoteBeforeSeal(states: seq<State>, steps: seq<Step>, j: nat)
    requires Execution(states, steps) && j <= |steps| && states[j].results.None?
    ensures StillRunning !in states[j].failures
  {
    if 0 < j {
      UnsealedBefore(states, steps, j - 1, j);
      NoNoteBeforeSeal(states, steps, j - 1);
      assert Leads(states, steps, j - 1);
      NoNoteStep(states[j - 1], steps[j - 1]);
    }
  }

  /**
    The sealing step (`k`) is that of a `stop`, whose thread passed the join in an earlier state `p`.
    The snapshot is what was recorded, and says that a sampling thread was still running if and only
    if the one started last had not ended when that join gave up on it; before the seal no such note
    exists.
   */
  lemma {:induction false} OutlivingThreadNoted(states: seq<State>, steps: seq<Step>, k: nat) returns (p: nat)
    requires Execution(states, steps) && k < |steps|
    requires states[k].results.None? && states[k + 1].results.Some?
    ensures steps[k].Advance? && p < k && At(states[p], steps[k].t).StopJoin?
    ensures StillRunning !in states[k].failures
    ensures var s, snapshot := states[k], states[k + 1].results.value;
      && snapshot == Snapshot(s.samples, states[k + 1].failures, s.discarded)
      && ScrapeFailedIn(snapshot.failures) == ScrapeFailedIn(s.failures)
      && (StillRunning in snapshot.failures <==> ThreadAlive(states[p]))
  {
    Taken(states, steps, k);
    SealingStep(states[k], steps[k]);
    p := Joined(states, steps, k, steps[k].t);
    NoNoteBeforeSeal(states, steps, k);
    ScrapeFailedInSnoc(states[k].failures, StillRunning);
    assert states[k].failures + [] == states[k].failures;
  }

  /** The step with which a `start` keeps its probe; it does not look at the seal. */
  predicate KeepsProbe(s: State, step: Step) {
    step.Advance? && At(s, step.t).StartFile?
  }

  /** How many probes `start` keeps in the steps from `i` to `j`. */
  ghost function ProbesKept(states: seq<State>, steps: seq<Step>, i: nat, j: nat): nat
    requires i <= j <= |steps| && |states| == |steps| + 1
  {
    if i == j then 0
    else ProbesKept(states, steps, i, j - 1) + if KeepsProbe(states[j - 1], steps[j - 1]) then 1 else 0
  }

  lemma LoopSealedSamples(s: State, t: Tid, pc: Pc, outcome: Outcome)
    requires LoopPc(pc) && KnowsSeal(s, pc) && s.results.Some?
    ensures LoopMove(s, t, pc, outcome).shared.samples == s.samples
  {
  }

  lemma CallerSamples(s: State, t: Tid, pc: Pc)
    requires !LoopPc(pc)
    ensures |CallerMove(s, t, pc).shared.samples| == |s.samples| + if pc.StartFile? then 1 else 0
  {
  }

  lemma {:induction false} SealedSamples(s: State, step: Step)
    requires SealHolds(s) && Enabled(s, step) && s.results.Some?
    ensures |Apply(s, step).samples| == |s.samples| + if KeepsProbe(s, step) then 1 else 0
  {
    var pc := At(s, step.t);
    assert KnowsSeal(s, pc);
    if step.Advance? && !pc.StartSpawn? {
      AdvanceMoves(s, step);
      if LoopPc(pc) { LoopSealedSamples(s, step.t, pc, step.outcome); } else { CallerSamples(s, step.t, pc); }
    }
  }

  lemma {:induction false} StaysSealed(states: seq<State>, steps: seq<Step>, i: nat, j: nat)
    requires Execution(states, steps) && i <= j <= |steps| && states[i].results.Some?
    ensures SealHolds(states[j]) && states[j].results.Some?
  {
    SealedForever(states, steps, i, j);
    RunInv(states, steps, j);
  }

  lemma {:induction false} StepGrows(states: seq<State>, steps: seq<Step>, i: nat, j: nat)
    requires Execution(states, steps) && i <= j < |steps| && states[i].results.Some?
    ensures |states[j + 1].samples| == |states[j].samples| + if KeepsProbe(states[j], steps[j]) then 1 else 0
  {
    StaysSealed(states, steps, i, j);
    assert Leads(states, steps, j);
    SealedSamples(states[j], steps[j]);
  }

  lemma {:induction false} SealedSamplesGrow(states: seq<State>, steps: seq<Step>, i: nat, j: nat)
    requires Execution(states, steps) && i <= j <= |steps| && states[i].results.Some?
    ensures |states[j].samples| == |states[i].samples| + ProbesKept(states, steps, i, j)
  {
    if i < j {
      SealedSamplesGrow(states, steps, i, j - 1);
      StepGrows(states, steps, i, j - 1);
    }
  }

  /** The samples are frozen after the seal if and only if no `start` keeps a probe after it. */
  lemma {:induction false} SamplesFrozenIff(states: seq<State>, steps: seq<Step>, i: nat, j: nat)
    requires Execution(states, steps) && i <= j <= |steps| && states[i].results.Some?
    ensures states[j].samples == states[i].samples <==> ProbesKept(states, steps, i, j) == 0
  {
    SealedForever(states, steps, i, j);
    SealedSamplesGrow(states, steps, i, j);
  }

  /** And a late `start` does it from every sealed state: the snapshot and the live list part ways. */
  lemma {:induction false} LateStartBreaksSeal(
    s: State, s1: State, s2: State, s3: State, t: Tid, probe: Reading, outcome: Outcome)
    requires SealHolds(s) && s.results.Some? && s.lock.None? && At(s, t).Idle?
    requires s1 == Apply(s, CallStart(t, probe))
    requires s2 == Apply(s1, Advance(t, outcome, t))
    requires s3 == Apply(s2, Advance(t, outcome, t))
    ensures Enabled(s, CallStart(t, probe))
    ensures Enabled(s1, Advance(t, outcome, t)) && Enabled(s2, Advance(t, outcome, t))
    ensures s3.results == s.results && s3.samples == s.samples + [Probe(probe)]
    ensures s3.samples != s3.results.value.samples
  {
    assert At(s1, t) == StartLock(probe);
    assert At(s2, t) == StartFile(probe);
  }

  // A run in which that happens

  ghost function LastOf(states: seq<State>): State
    requires states != []
  {
    states[|states| - 1]
  }

  lemma Extend(states: seq<State>, steps: seq<Step>, step: Step) returns (states': seq<State>, steps': seq<Step>)
    requires Execution(states, steps) && Enabled(LastOf(states), step)
    ensures Execution(states', steps') && states <= states' && LastOf(states') == Apply(LastOf(states), step)
  {
    states', steps' := states + [Apply(LastOf(states), step)], steps + [step];
    forall i | 0 <= i < |steps'| ensures Leads(states', steps', i) {
      if i < |steps| {
        assert Leads(states, steps, i);
      }
    }
  }

  /** Nobody holds the list lock, and thread 0 is between calls. */
  predicate Calm(s: State) { s.lock.None? && At(s, 0).Idle? }

  /** The next step of thread 0, if it spawns nothing. */
  const GO := Advance(0, Broken(""), 0)

  predicate Goes(s: State, s': State) { Enabled(s, GO) && s' == Apply(s, GO) }

  lemma GoTwice(states: seq<State>, steps: seq<Step>, s1: State, s2: State)
    returns (states': seq<State>, steps': seq<Step>)
    requires Execution(states, steps) && Goes(LastOf(states), s1) && Goes(s1, s2)
    ensures Execution(states', steps') && states <= states' && LastOf(states') == s2
  {
    states', steps' := Extend(states, steps, GO);
    states', steps' := Extend(states', steps', GO);
  }

  /** Thread 0 calls `start` and keeps the probe. */
  lemma {:induction false} KeepStates(s: State, probe: Reading) returns (s1: State, s2: State, s3: State)
    requires Calm(s)
    ensures Enabled(s, CallStart(0, probe)) && s1 == Apply(s, CallStart(0, probe)) && Goes(s1, s2) && Goes(s2, s3)
    ensures At(s3, 0) == StartUnlock && s3.results == s.results && s3.samples == s.samples + [Probe(probe)]
    ensures s3.pcs.Keys == s.pcs.Keys + {0}
  {
    s1 := Apply(s, CallStart(0, probe));
    assert At(s1, 0) == StartLock(probe);
    s2 := Apply(s1, GO);
    assert At(s2, 0) == StartFile(probe);
    s3 := Apply(s2, GO);
  }

  lemma {:induction false} SpawnStates(s: State, child: Tid) returns (s1: State, end: State)
    requires At(s, 0) == StartUnlock && child !in s.pcs && child != 0
    ensures Goes(s, s1) && Enabled(s1, Advance(0, Broken(""), child)) && end == Apply(s1, Advance(0, Broken(""), child))
    ensures Calm(end) && end.results == s.results && end.samples == s.samples
  {
    s1 := Apply(s, GO);
    assert At(s1, 0) == StartSpawn;
    end := Apply(s1, Advance(0, Broken(""), child));
  }

  lemma {:induction false} KeepRun(states: seq<State>, steps: seq<Step>, probe: Reading)
    returns (states': seq<State>, steps': seq<Step>)
    requires Execution(states, steps) && Calm(LastOf(states))
    ensures Execution(states', steps') && states <= states'
    ensures var s, s' := LastOf(states), LastOf(states');
      && At(s', 0) == StartUnlock && s'.pcs.Keys == s.pcs.Keys + {0}
      && s'.results == s.results && s'.samples == s.samples + [Probe(probe)]
  {
    var s1, s2, s3 := KeepStates(LastOf(states), probe);
    states', steps' := Extend(states, steps, CallStart(0, probe));
    states', steps' := GoTwice(states', steps', s2, s3);
  }

  /** A whole `start` of thread 0. */
  lemma {:induction false} StartRun(states: seq<State>, steps: seq<Step>, probe: Reading, child: Tid)
    returns (states': seq<State>, steps': seq<Step>)
    requires Execution(states, steps) && Calm(LastOf(states)) && child !in LastOf(states).pcs && child != 0
    ensures Execution(states', steps') && states <= states' && Calm(LastOf(states'))
    ensures LastOf(states').results == LastOf(states).results
    ensures LastOf(states').samples == LastOf(states).samples + [Probe(probe)]
  {
    states', steps' := KeepRun(states, steps, probe);
    assert child !in LastOf(states').pcs.Keys;
    var s1, end := SpawnStates(LastOf(states'), child);
    states', steps' := Extend(states', steps', GO);
    states', steps' := Extend(states', steps', Advance(0, Broken(""), child));
  }

  /** Thread 0 calls `stop` and comes to the join. */
  lemma {:induction false} StopStates(s: State) returns (s1: State, s2: State, s3: State, s4: State)
    requires Calm(s) && s.results.None?
    ensures Enabled(s, CallStop(0)) && s1 == Apply(s, CallStop(0))
    ensures Goes(s1, s2) && Goes(s2, s3) && Goes(s3, s4)
    ensures At(s4, 0) == StopJoin && s4.lock.None? && s4.samples == s.samples
  {
    s1 := Apply(s, CallStop(0));
    assert At(s1, 0) == StopLock;
    s2 := Apply(s1, GO);
    assert At(s2, 0) == StopPeek;
    s3 := Apply(s2, GO);
    assert At(s3, 0) == StopUnlock;
    s4 := Apply(s3, GO);
  }

  /** It goes on, joined in time or not, to the seal. */
  lemma {:induction false} JoinStates(s: State) returns (s1: State, s2: State)
    requires At(s, 0) == StopJoin && s.lock.None?
    ensures Goes(s, s1) && Goes(s1, s2)
    ensures At(s2, 0).StopSeal? && s2.samples == s.samples
  {
    s1 := Apply(s, GO);
    assert At(s1, 0) == StopRelock(At(s1, 0).alive);
    s2 := Apply(s1, GO);
  }

  lemma {:induction false} SealStates(s: State) returns (s1: State, end: State)
    requires At(s, 0).StopSeal?
    ensures Goes(s, s1) && Goes(s1, end)
    ensures Calm(end) && end.results.Some? && end.samples == s.samples
  {
    s1 := Apply(s, GO);
    assert At(s1, 0) == StopReturn(s1.results.value);
    end := Apply(s1, GO);
  }

  lemma {:induction false} JoinRun(states: seq<State>, steps: seq<Step>)
    returns (states': seq<State>, steps': seq<Step>)
    requires Execution(states, steps) && Calm(LastOf(states)) && LastOf(states).results.None?
    ensures Execution(states', steps') && states <= states'
    ensures At(LastOf(states'), 0) == StopJoin && LastOf(states').lock.None?
    ensures LastOf(states').samples == LastOf(states).samples
  {
    var s1, s2, s3, s4 := StopStates(LastOf(states));
    states', steps' := Extend(states, steps, CallStop(0));
    states', steps' := GoTwice(states', steps', s2, s3);
    states', steps' := Extend(states', steps', GO);
  }

  /** A whole `stop` of thread 0. */
  lemma {:induction false} StopRun(states: seq<State>, steps: seq<Step>)
    returns (states': seq<State>, steps': seq<Step>)
    requires Execution(states, steps) && Calm(LastOf(states)) && LastOf(states).results.None?
    ensures Execution(states', steps') && states <= states' && Calm(LastOf(states'))
    ensures LastOf(states').results.Some? && LastOf(states').samples == LastOf(states).samples
  {
    states', steps' := JoinRun(states, steps);
    var s1, s2 := JoinStates(LastOf(states'));
    states', steps' := GoTwice(states', steps', s1, s2);
    var s3, end := SealStates(s2);
    states', steps' := GoTwice(states', steps', s3, end);
  }

  /** Started, stopped and started again: the snapshot and the live samples part ways in a run from the beginning. */
  lemma {:induction false} RestartBreaksSeal(first: Reading, second: Reading)
    returns (states: seq<State>, steps: seq<Step>, sealed: nat)
    ensures Execution(states, steps) && sealed < |states|
    ensures states[sealed].results.Some? && LastOf(states).results == states[sealed].results
    ensures states[sealed].samples == [Probe(first)] && LastOf(states).samples == [Probe(first), Probe(second)]
  {
    states, steps := [Init()], [];
    states, steps := StartRun(states, steps, first, 1);
    states, steps := StopRun(states, steps);
    sealed := |states| - 1;
    var child := FreshTid(LastOf(states), 0);
    states, steps := StartRun(states, steps, second, child);
  }

  // The peaks the report quotes

  function PeakDue(samples: seq<SampleEntry>): nat {
    if samples == [] then 0
    else if |samples| == 1 then samples[0].reading.due
    else
      var rest := PeakDue(samples[..|samples| - 1]);
      if samples[|samples| - 1].reading.due > rest then samples[|samples| - 1].reading.due else rest
  }

  function PeakAge(samples: seq<SampleEntry>): Seconds {
    if samples == [] then 0.0
    else if |samples| == 1 then samples[0].reading.age
    else
      var rest := PeakAge(samples[..|samples| - 1]);
      if samples[|samples| - 1].reading.age > rest then samples[|samples| - 1].reading.age else rest
  }

  lemma {:induction false} PeaksAreMaxima(samples: seq<SampleEntry>)
    ensures forall e :: e in samples ==> e.reading.due <= PeakDue(samples) && e.reading.age <= PeakAge(samples)
    ensures samples != [] ==> exists e :: e in samples && e.reading.due == PeakDue(samples)
    ensures samples != [] ==> exists e :: e in samples && e.reading.age == PeakAge(samples)
  {
    if |samples| > 1 {
      var n := |samples| - 1;
      PeaksAreMaxima(samples[..n]);
      assert samples == samples[..n] + [samples[n]];
      assert samples[n] in samples;
    } else if |samples| == 1 {
      assert samples[0] in samples;
    }
  }

  ghost predicate NoneOverDue(more: seq<SampleEntry>, due: nat) {
    forall e :: e in more ==> e.reading.due <= due
  }

  ghost predicate NoneOverAge(more: seq<SampleEntry>, age: Seconds) {
    forall e :: e in more ==> e.reading.age <= age
  }

  lemma {:induction false} PeaksUnchangedIff(samples: seq<SampleEntry>, more: seq<SampleEntry>)
    ensures PeakDue(samples + more) == PeakDue(samples) <==> NoneOverDue(more, PeakDue(samples))
    ensures PeakAge(samples + more) == PeakAge(samples) <==> NoneOverAge(more, PeakAge(samples))
  {
    var all := samples + more;
    PeaksAreMaxima(all);
    PeaksAreMaxima(samples);
    assert forall e :: e in samples || e in more <==> e in all;
  }

  /** From the seal (step `k`) on, the live samples are the snapshot's and the probes kept since. */
  lemma {:induction false} SnapshotAndProbes(states: seq<State>, steps: seq<Step>, k: nat, j: nat)
    requires Execution(states, steps) && k < j <= |steps|
    requires states[k].results.None? && states[k + 1].results.Some?
    ensures states[j].results == states[k + 1].results
    ensures OnlyProbesSince(states[j].results.value.samples, states[j].samples)
  {
    Taken(states, steps, k);
    SealingStep(states[k], steps[k]);
    SealedForever(states, steps, k + 1, j);
  }

  /** Then each live peak is the snapshot's exactly when no probe kept since the seal is over it. */
  lemma {:induction false} PeaksOfSnapshot(states: seq<State>, steps: seq<Step>, k: nat, j: nat)
    requires Execution(states, steps) && k < j <= |steps|
    requires states[k].results.None? && states[k + 1].results.Some?
    ensures states[j].results == states[k + 1].results
    ensures var snapshot, live := states[j].results.value.samples, states[j].samples;
      && OnlyProbesSince(snapshot, live)
      && (PeakDue(live) == PeakDue(snapshot) <==> NoneOverDue(live[|snapshot|..], PeakDue(snapshot)))
      && (PeakAge(live) == PeakAge(snapshot) <==> NoneOverAge(live[|snapshot|..], PeakAge(snapshot)))
  {
    SnapshotAndProbes(states, steps, k, j);
    PrefixPeaks(states[j].results.value.samples, states[j].samples);
  }

  lemma PrefixPeaks(snapshot: seq<SampleEntry>, live: seq<SampleEntry>)
    requires snapshot <= live
    ensures PeakDue(live) == PeakDue(snapshot) <==> NoneOverDue(live[|snapshot|..], PeakDue(snapshot))
    ensures PeakAge(live) == PeakAge(snapshot) <==> NoneOverAge(live[|snapshot|..], PeakAge(snapshot))
  {
    PeaksUnchangedIff(snapshot, live[|snapshot|..]);
    assert live == snapshot + live[|snapshot|..];
  }

  // ------------------------------------------------------------------
  // No deadlock
  // ------------------------------------------------------------------

  lemma {:induction false} FreshTid(s: State, t: Tid) returns (child: Tid)
    ensures child !in s.pcs && child != t
  {
    var keys := s.pcs.Keys + {t};
    child := Above(keys);
  }

  lemma {:induction false} Above(keys: set<Tid>) returns (top: Tid)
    ensures forall k :: k in keys ==> k < top
    decreases |keys|
  {
    if keys == {} {
      top := 0;
    } else {
      var k :| k in keys;
      var rest := Above(keys - {k});
      top := if k < rest then rest else k + 1;
      assert forall x :: x in keys ==> x == k || x in keys - {k};
    }
  }

  /** The thread has work left, and no lock it needs now is held. */
  predicate CanStep(s: State, t: Tid) {
    && !At(s, t).Idle? && !At(s, t).LoopDone?
    && (WantsInFlight(At(s, t)) ==> s.inFlight.None?)
    && (WantsLock(At(s, t)) ==> s.lock.None?)
  }

  /** `t` waits for a lock that `u` holds. */
  predicate WaitsFor(s: State, t: Tid, u: Tid) {
    || (WantsInFlight(At(s, t)) && s.inFlight == Some(u))
    || (WantsLock(At(s, t)) && s.lock == Some(u))
  }

  lemma {:induction false} LockHolderSteps(s: State, u: Tid)
    requires LocksHeld(s) && s.lock == Some(u)
    ensures CanStep(s, u)
  {
    assert HoldsLock(At(s, u));
  }

  lemma {:induction false} InFlightHolderSteps(s: State, u: Tid)
    requires LocksHeld(s) && s.inFlight == Some(u)
    ensures CanStep(s, u) || (WantsLock(At(s, u)) && s.lock.Some?)
  {
    assert HoldsInFlight(At(s, u));
  }

  /**
    No two threads ever wait for each other: every thread with work left can step, or waits for a
    thread that can, or waits for a thread that waits for one that can.
   */
  lemma {:induction false} NeverStuck(states: seq<State>, steps: seq<Step>, i: nat, t: Tid)
    requires Execution(states, steps) && i <= |steps|
    requires !At(states[i], t).Idle? && !At(states[i], t).LoopDone?
    ensures var s := states[i];
      || CanStep(s, t)
      || (exists u: Tid :: WaitsFor(s, t, u) && CanStep(s, u))
      || (exists u: Tid, v: Tid :: WaitsFor(s, t, u) && WaitsFor(s, u, v) && CanStep(s, v))
  {
    RunInv(states, steps, i);
    var s := states[i];
    if s.lock.Some? { LockHolderSteps(s, s.lock.value); }
    if s.inFlight.Some? { InFlightHolderSteps(s, s.inFlight.value); }
    if !CanStep(s, t) {
      if WantsLock(At(s, t)) {
        assert WaitsFor(s, t, s.lock.value);
      } else {
        var u := s.inFlight.value;
        assert WaitsFor(s, t, u);
        if !CanStep(s, u) {
          assert WaitsFor(s, u, s.lock.value) && CanStep(s, s.lock.value);
        }
      }
    }
  }

  /** And to be able to step is to have a step. */
  lemma {:induction false} CanStepSteps(s: State, t: Tid, outcome: Outcome) returns (step: Step)
    requires CanStep(s, t)
    ensures step.Advance? && step.t == t && Enabled(s, step)
  {
    var child := FreshTid(s, t);
    step := Advance(t, outcome, child);
  }
}
