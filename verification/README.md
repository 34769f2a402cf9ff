# Verified models of AetherCal's scheduling, outbox, limiter and simulation harness

These Dafny files model some of the stateful and arithmetic cores of the AetherCal repository, and
prove what the code and its documentation promise of them.

| file | what it models |
|---|---|
| `RateLimiter.dfy` | the booking page's sliding-window limiter: an LRU-ordered map of pruned hit lists, against the complete log of calls it stands in for |
| `OutboxClaims.dfy` | the outbox worker: claims, leases, recovery and settlement of rows by any number of concurrent drain passes |
| `Slots.dfy` | the scheduling engine: weekly schedule and overrides to merged availability, slots on offer, and runs of bookings |
| `Conflicts.dfy` | the sweep that audits a schedule for overlapping pairs |
| `OutboxSampler.dfy` | the outbox sampler: background threads, two locks and two event flags, over every interleaving of `pause`, `resume`, `start` and `stop` |
| `Mailbox.dfy` | reading a whole mailbox page by page from a server that may answer anything, and attaching calendar identities |
| `ICalendar.dfy` | unfolding content lines (section 3.1 of RFC 5545), first-occurrence properties, and what an announcement means |
| `Overlap.dfy` | the sweep that finds how many requests were in flight at once |
| `Apportion.dfy` | the largest-remainder split of a total over weights |
| `TrafficPlan.dfy` | the two-week demand plan and its guest addresses |
| `Organic.dfy` | the organic phase: concurrent workers, exhaustive outcome categories, latencies and tally, control C13 |
| `Races.dfy` | barrier-released bursts, their classification, controls C10 and C15 |
| `Confirmations.dfy` | polling the mailbox and matching each booking to its confirmation, control C14 |
| `Verdict.dfy` | the verdict over the controls and what MEASURED stands for |
| `LayoutShift.dfy` | the layout-shift session-window accumulator |
| `Passwords.dfy` | the printer, parser and verifier of stored password hashes |
| `Responses.dfy`, `Text.dfy`, `Wrappers.dfy` | HTTP answers and their keys, ASCII text, and option and result types |

How the pieces are modelled:

* Code that updates state in place is imperative: the limiter and the layout-shift accumulator are
  classes with the source's fields, and `read_all`, `allocate_by_weight`, `plan_two_weeks`,
  `measure_confirmations`, the slot, availability and conflict engines and the grouping helpers are
  methods with loops. Each is proved against a specification, and the theorems are about that
  specification.
* Concurrent code (the sampler, the organic workers, the contenders of a race) is a step system:
  one program point per thread, one step per lock operation, flag test or locked update. For the
  outbox a step is one committed transaction. Theorems quantify over every finite run.
* HTTP answers, clock readings, random draws, shuffles, MIME walks and the key-derivation function
  are arbitrary inputs. Times are reals and weights exact rationals. A dictionary of counts is a
  multiset of its keys.

## What the proofs found

* **A settle trusts the worker's name alone.** `_settle` writes if the row is claimed under its own
  name; which claim that is, it does not check. So results are written only for the claim they were
  executed for if and only if no two passes share a name (`NeverStaleIff`). `drain_outbox` takes the
  name as an optional argument: left out, as the scheduler does, each pass draws a fresh one. With a
  shared name a pass that outran its lease writes over the younger claim (`SharedNameGoesStale`).
  When every lease outlives its execution, the name does not matter (`LeasesExclude`).
* **A lost lease is not always reported lost.** `OutboxReport.lost` is documented as the rows whose
  lease expired mid-send. `LostIff` gives the exact condition: the claim was recovered, and the row
  has not been voided or erased by the time the result is discarded. `VoidHidesLoss` is a run in
  which two passes execute one row at once and no report says `lost`.
* **A booking's own buffers are not reserved once it stands.** The busy set holds slots without their
  buffers, and only the slot being offered is padded. Two bookings never overlap (`NeverDoubleBooked`),
  and the time between them is at least the buffer of the younger one on that side
  (`RoomOfTheYounger`); so what an event type guarantees whatever the order of booking is the lesser
  of its two buffers (`RoomAlwaysIff`), and bookings made in order of time never see `after`.
* **A late `start` ignores the seal.** `OutboxSampler.start` appends its probe without looking at
  the sealed results, so `samples` can grow after `stop` returned. `RestartBreaksSeal` is a run from
  the beginning (start, stop, start) in which it does, `LateStartBreaksSeal` shows it of every sealed
  state, and `SamplesFrozenIff` gives the exact condition (no `start` keeps a probe after the seal).
  The peaks then still agree exactly when no such probe is over them (`PeaksOfSnapshot`). Failures,
  the discard count and the snapshot every `stop` returns are frozen unconditionally.
* **C15 keys its peaks by race name.** `judge_race_concurrency` collects peaks in a dictionary, so
  of several contended races with one name only the last is examined. `ConcurrencyPassesIff` states
  exactly what a pass establishes, `ConcurrencyNeedsNames` is an input where a queue passes, and
  `ConcurrencyPassesWhenNamed` the promised equivalence when names are distinct (as they are in
  `__main__.py`, which names each of its five races differently).
* **The limiter's LRU order follows the last call, its liveness the last accepted hit.** A fully
  expired key may sit behind a live one: `StaleBehindLive` is such a run, and `StaleIff` says exactly
  which tracked keys are expired: those whose every call within the window was refused. What holds of
  all of them is that they were *called* within the last window (`MemoryBound`).
* **The password parser accepts more than the printer writes.** Parsing after printing is exact
  (`RoundTrip`). Printing after parsing gives back exactly the canonical strings
  (`PrintUndoesParseIff`): a count of digits only with no leading zero, salt and key in digits and
  lower-case letters. So a plus sign (`PlusSignAlsoAccepted`), a leading zero, an underscore between
  digits, upper-case hexadecimal and whitespace are accepted and normalised away (`ParseNormalises`).
* **A create answered `slot_unavailable` counts as a collision whatever its status**, while on the
  reschedule leg only a refusal does. In a run that passes C13 the tally never has more 409 conflicts
  than there are collisions, and as many exactly when each collision was answered with 409
  (`ConflictsAreCollisions`). `CollisionWithoutConflict` is a passing run in which they differ.
* **A layout shift of value zero does not open a session window.** The accumulator uses
  `windowValue === 0` to mean "no window", so such a shift would move the start of the window that
  follows it. Browsers report positive shifts only, so such a stream is out of range, and for positive
  shifts the documented result holds (`ClsIsLargestWindow`). For the rest, `ClsIsLargestSession` gives
  the exact result for all non-negative shifts in order of time, `GreedyIsSessionsIff` says exactly when the greedy
  windows are the accumulator's (none begins with a zero), and `ZeroShiftOpensNoWindow` is a stream
  where the two readings differ.

## Model

| member | source | states |
|---|---|---|
| `RateLimiter.Limiter.Allow` | apps/booking/src/aethercal/booking/app.py:390-409 | The class method, field by field: its new state is the specified one, and of the very call it promises the answer the log dictates, the memory bound and, where the configuration leaves room, that the caller stays tracked |
| `RateLimiter.Limiter.SweepExpired` | apps/booking/src/aethercal/booking/app.py:411-422 | The front of the key order is dropped exactly up to the first key that is still live |
| `RateLimiter.Limiter.EvictOverCap` | apps/booking/src/aethercal/booking/app.py:424-427 | Least recently called keys go until the cap holds, each eviction noted in the ghost log |
| `RateLimiter.AllowRefinesLog` | apps/booking/src/aethercal/booking/app.py:390-427 | After any run in time order, a call is accepted exactly when fewer than `max_requests` calls of that key were accepted within the window since its last cap eviction, although pruning, key deletion and the sweep threw history away |
| `RateLimiter.AllowPromised` | apps/booking/src/aethercal/booking/app.py:390-409 | One call preserves the link between store and log, answers as the log dictates, leaves the memory bounded, and keeps the caller tracked where the configuration leaves room for it |
| `RateLimiter.WindowBound` | apps/booking/src/aethercal/booking/app.py:397-409 | No closed interval of one window's length holds more than `max_requests` accepted calls of a key that is not cap-evicted in between, over whole runs |
| `RateLimiter.MemoryBound` | apps/booking/src/aethercal/booking/app.py:397-427 | After every call: at most `max_keys` keys, no empty list, every list sorted and at most `max_requests` long, every tracked key called within the last window, and the calling key survives its own sweep and eviction |
| `RateLimiter.EvictsLongestIdle` | apps/booking/src/aethercal/booking/app.py:424-427 | On every call the cap leaves as many of the swept keys as it allows, logs just the others as evicted, and none of those was called later than any key that stays |
| `RateLimiter.StaleIff` | apps/booking/src/aethercal/booking/app.py:397-422 | A tracked key is fully expired exactly when every call of it within the window was refused |
| `RateLimiter.StaleBehindLive` | apps/booking/src/aethercal/booking/app.py:405-422 | A run of four calls after which an expired key sits behind a live one |
| `RateLimiter.SweptSize` | apps/booking/src/aethercal/booking/app.py:411-422 | After the sweep the limiter tracks no more keys than distinct clients called within the last window |
| `RateLimiter.FewActiveNeverEvicted` | apps/booking/src/aethercal/booking/app.py:364-375 | While no window sees more than `max_keys` clients, nothing is ever cap-evicted |
| `RateLimiter.Isolation` | apps/booking/src/aethercal/booking/app.py:390-427 | A key that is never cap-evicted is answered exactly as if it were the only client |
| `OutboxClaims.RunInv` | apps/server/src/aethercal/server/services/outbox.py:1337-1780 | In every state of every interleaving of passes: exactly the claimed rows have a holder and a lease, attempts are those of the history and within the limit, every item in hand has its claim standing under its pass's name and deadline or ended, no two passes hold one claim, and each report keeps to its plan |
| `OutboxClaims.NeverStaleIff` | apps/server/src/aethercal/server/services/outbox.py:1687-1720 | In every run a result is written only for the claim it was executed for, if and only if no two passes share a name |
| `OutboxClaims.SharedNameGoesStale` | apps/server/src/aethercal/server/services/outbox.py:1855-1875 | A run, for any two passes of one name, in which the older writes its result for the younger one's claim while that is still executed |
| `OutboxClaims.SettleWritesIff` | apps/server/src/aethercal/server/services/outbox.py:1687-1780 | With distinct names a settle writes exactly while its claim stands, and files the outcome in the bucket that agrees with the row's new status; otherwise it changes no row |
| `OutboxClaims.LostIff` | apps/server/src/aethercal/server/services/outbox.py:1783-1852 | An item is reported lost exactly when its claim was recovered, which was not before its deadline, and its row is neither voided nor erased; voided or erased exactly when the row is that |
| `OutboxClaims.TwoHoldersMeanExpiry` | apps/server/src/aethercal/server/services/outbox.py:1415-1456 | Two passes have a row in hand at once only if the older claim was recovered at or after its deadline |
| `OutboxClaims.LeasesExclude` | apps/server/src/aethercal/server/services/outbox.py:1434-1437 | When no living pass still holds a row that is recovered past its lease, then whatever the names no two hold one row, every result is its claim's own, and nothing is lost |
| `OutboxClaims.VoidHidesLoss` | apps/server/src/aethercal/server/services/outbox.py:1794-1852 | A run in which two passes execute one row at once, the booking is cancelled, and no report says lost |
| `OutboxClaims.EveryClaimAccounted` | apps/server/src/aethercal/server/services/outbox.py:1337-1780 | Each time a row was handed out has ended in exactly one way or is going on; attempts are the ends that cost one since the last revival, at most the limit; a delivered, skipped, voided or erased row is never handed out again |
| `OutboxClaims.DeliveredReportedOnce` | apps/server/src/aethercal/server/services/outbox.py:1761-1768 | All passes together report a row delivered at most once, even under shared names, and then it is delivered for good or deleted |
| `OutboxClaims.ReportIsPlan` | apps/server/src/aethercal/server/services/outbox.py:1544-1589 | What a pass has filed, has in hand and has still to do is its plan, in order: each item lands in exactly one bucket |
| `OutboxClaims.ClaimedCanBeRecovered` | apps/server/src/aethercal/server/services/outbox.py:1337-1371 | A crash strands no row: a claimed row has a lease, and any beginning pass can take it back exactly from that instant on |
| `OutboxClaims.NotBeforeItsTime` | apps/server/src/aethercal/server/services/outbox.py:1446-1456 | A waiting row is next handed out no sooner than its time, unless somebody re-times it |
| `OutboxClaims.RetryWaits` | apps/server/src/aethercal/server/services/outbox.py:1770-1778 | After a failure that leaves attempts, the next execution waits out the backoff, whatever happens in between short of a re-timing |
| `OutboxClaims.BackoffDoubles` | apps/server/src/aethercal/server/services/outbox.py:784-794 | The backoff starts at half a minute and doubles up to an hour |
| `Slots.Merge` | packages/aethercal-core/src/aethercal/core/availability/engine.py:53-64 | The same instants as the input, as intervals in order with a gap between any two |
| `Slots.MergedUnique` | packages/aethercal-core/src/aethercal/core/availability/engine.py:53-64 | There is only one such list for a set of instants, so the input's order and cuts do not matter |
| `Slots.AvailableIntervals` | packages/aethercal-core/src/aethercal/core/availability/engine.py:30-91 | For any conversion of wall times: an instant is available exactly when a range of some day in the window, the override's if the day has one, is open then; an error exactly for two overrides of one date |
| `Slots.AvailableSlots` | packages/aethercal-core/src/aethercal/core/slots/engine.py:22-55 | Exactly the slots that fit an available interval at a multiple of the increment, start in the booking window and are free with their buffers; once each, by start |
| `Slots.OfferIsOpen` | packages/aethercal-core/src/aethercal/core/slots/engine.py:3-11 | Every instant of a slot on offer is available, and none of it with its buffers is busy |
| `Slots.NeverDoubleBooked` | packages/aethercal-core/src/aethercal/core/slots/engine.py:9-11 | Over every run of bookings of slots on offer and cancellations, for all of a host's event types, no two standing bookings share an instant |
| `Slots.RoomOfTheYounger` | packages/aethercal-core/src/aethercal/core/slots/engine.py:46-53 | The time between two standing bookings is at least the buffer the younger one has on that side |
| `Slots.RoomAlwaysIff` | packages/aethercal-core/src/aethercal/core/model/event_type.py:12-30 | A distance is guaranteed between all bookings of one event's buffers, in every run, if and only if it is at most the lesser of the two |
| `Conflicts.FindOverlappingPairs` | packages/aethercal-core/src/aethercal/core/conflicts/detection.py:42-65 | The sweep with its set of open intervals returns exactly the pairs of positions whose intervals overlap, once each and in order |
| `Slots.OverlapIsShared` | packages/aethercal-core/src/aethercal/core/model/interval.py:37-39 | Two intervals overlap exactly when they share an instant |
| `OutboxSampler.RunInv` | simulation/aethercal_sim/measure.py:376-556 | In every state of every interleaving: each lock has exactly the holder its program points say, at most one scrape is unfiled, the lists are the ledger of scrape fates, and the seal is respected |
| `OutboxSampler.PauseBarrier` | simulation/aethercal_sim/measure.py:376-446 | From the return of `pause` until the next `resume` no loop scrape is in flight in any thread, and none begins |
| `OutboxSampler.InterruptedNeverRecorded` | simulation/aethercal_sim/measure.py:421-482 | A scrape that ends after `pause` was called is never recorded as a sample or a failure before a resume |
| `OutboxSampler.EveryScrapeCountedOnce` | simulation/aethercal_sim/measure.py:446-504 | Every ended loop scrape is exactly one of: a sample, a failure, a discard, a drop, or the one being filed; the lists hold them in order; nothing is dropped before the seal, nor discarded before somebody has called `pause` |
| `OutboxSampler.FateDecided` | simulation/aethercal_sim/measure.py:462-482 | Every scrape's fate was decided by the flags as its thread read them under the list lock: dropped exactly if sealed, otherwise discarded exactly if paused, otherwise recorded |
| `OutboxSampler.DroppedIffAfterSeal` | simulation/aethercal_sim/measure.py:462-556 | After the seal the dropped scrapes are exactly those that had not been filed when it was taken |
| `OutboxSampler.UnpausedNeverDiscards` | simulation/aethercal_sim/measure.py:376-482 | From any state that is not paused until the next `pause`, no scrape that ends is discarded or about to be |
| `OutboxSampler.RecordedUntilPauseOrSeal` | simulation/aethercal_sim/measure.py:446-482 | Hence, unsealed and unpaused, every scrape that has ended and is not being filed is in the samples or the failures, with its own reading or reason |
| `OutboxSampler.OutlivingThreadNoted` | simulation/aethercal_sim/measure.py:506-556 | The snapshot is what was recorded, with the note of a thread still running exactly when the thread started last had not ended as the sealing `stop` passed its join; no such note exists before |
| `OutboxSampler.StopFreezes` | simulation/aethercal_sim/measure.py:506-556 | Once any `stop` returns, even with a thread that outlived the join, failures and discards equal its snapshot for ever, and samples may only gain probes of `start` |
| `OutboxSampler.StopsAgree` | simulation/aethercal_sim/measure.py:506-556 | Every stop, later or concurrent, returns the same snapshot |
| `OutboxSampler.SamplesFrozenIff` | simulation/aethercal_sim/measure.py:484-571 | Samples stay as sealed if and only if no `start` keeps a probe after the seal |
| `OutboxSampler.LateStartBreaksSeal` | simulation/aethercal_sim/measure.py:484-504 | From every sealed state a late `start` makes the live samples differ from the snapshot |
| `OutboxSampler.RestartBreaksSeal` | simulation/aethercal_sim/measure.py:484-556 | A run from the initial state, whatever is read: start, stop, start, after which the samples are not those sealed |
| `OutboxSampler.PeaksOfSnapshot` | simulation/aethercal_sim/measure.py:557-571 | From the seal on, in every run, each live peak equals the snapshot's exactly when no probe kept since the seal is over it |
| `OutboxSampler.PeaksAreMaxima` | simulation/aethercal_sim/measure.py:566-571 | Both peaks are maxima over the samples, and zero without any |
| `OutboxSampler.NeverStuck` | simulation/aethercal_sim/measure.py:376-556 | Every thread with work left can step, or waits for a lock whose holder can step, or whose holder waits for one whose holder can: no two threads wait for each other |
| `OutboxSampler.CanStepSteps` | simulation/aethercal_sim/measure.py:376-556 | A thread that can step in that sense has an enabled step |
| `Mailbox.ReadAll` | simulation/aethercal_sim/measure.py:1006-1188 | Against any server: the read either found a whole, parseable mailbox and returns exactly it, or stopped at the first fault of the first faulty page, names that fault, and keeps what it had parsed; within 400 requests |
| `Mailbox.CompleteIff` | simulation/aethercal_sim/measure.py:977-1188 | A read is complete exactly when some first pages (at most 400) are a whole mailbox all of whose items parse |
| `Mailbox.CompleteMeans` | simulation/aethercal_sim/measure.py:977-1188 | A complete read has as many messages as the last reported total, all IDs distinct, nothing unparseable, totals never decreasing, and the cursor always the count of distinct IDs |
| `Mailbox.OutcomeUnique` | simulation/aethercal_sim/measure.py:1006-1188 | The server's answers leave one possible result: page, reason, messages and counts |
| `Mailbox.HonestReadIsExact` | simulation/aethercal_sim/measure.py:1050-1188 | An honest server's box of distinct messages is read exactly, in max(1, ceil(n/p)) requests, when n <= 400p, and completely iff all parse; a larger one is never called complete |
| `Mailbox.TakePage` | simulation/aethercal_sim/measure.py:1114-1153 | Stops exactly at the first missing or repeated ID; otherwise every item is a message or counted unparseable |
| `Mailbox.HydrateInvites` | simulation/aethercal_sim/measure.py:943-975 | Identities are attached in order up to the first message without an ID or a fetchable source, and failure is reported iff there is one |
| `Mailbox.ReadAndHydrate` | simulation/aethercal_sim/__main__.py:561-584 | An incomplete read is handed on unchanged; a complete one gets its identities, and is degraded as a whole by one source that cannot be read |
| `Mailbox.IdentifiedMeans` | simulation/aethercal_sim/__main__.py:561-584 | The combined read is complete iff the paging was and every source could be fetched; then every message of the mailbox carries the identity its source states |
| `ICalendar.UnfoldInvertsFold` | simulation/aethercal_sim/measure.py:749-771 | However content lines are cut and continued by a blank, unfolding gives them back, exactly when no line after the first begins with a blank |
| `ICalendar.ICalendarProperties` | simulation/aethercal_sim/measure.py:753-779 | The map holds each stated property once, with the value of its first statement in the unfolded lines |
| `ICalendar.FirstOccurrencesUnique` | simulation/aethercal_sim/measure.py:772-779 | That description leaves only one map |
| `ICalendar.ParseInvite` | simulation/aethercal_sim/measure.py:828-904 | The identity read is the one the unfolded lines state, in exactly the cases where all four properties are there and the sequence is an integer |
| `ICalendar.RoleIgnoresFolding` | simulation/aethercal_sim/measure.py:671-690 | A message's role does not depend on how its sender folded the lines |
| `ICalendar.FirstIdentityWins` | simulation/aethercal_sim/measure.py:753-904 | Nothing that follows a complete identity changes it |
| `Overlap.PeakOverlap` | simulation/aethercal_sim/scenarios.py:569-591 | The sweep returns the largest number of half-open intervals open at one instant |
| `Overlap.PeakPermuted` | simulation/aethercal_sim/scenarios.py:569-591 | The order of recording does not matter |
| `Overlap.PeakTwoIffOverlap` | simulation/aethercal_sim/scenarios.py:569-591 | Two or more exactly when two requests share a non-empty stretch of time |
| `Overlap.SerialBurstPeaksAtOne` | simulation/aethercal_sim/scenarios.py:569-591 | A serial burst, handovers included, peaks at one at most |
| `Apportion.Allocate` | simulation/aethercal_sim/traffic.py:114-153 | Parts sum to the total exactly, each the floor of its share or one more, the extra units to the largest fractions with ties in shuffle order; errors exactly for a negative weight or a non-positive sum |
| `Apportion.Optimal` | simulation/aethercal_sim/traffic.py:114-153 | No other integer split of the total has a smaller sum of absolute deviations from the exact shares, whatever the shuffle |
| `Apportion.WholeSharesExact` | simulation/aethercal_sim/traffic.py:136-153 | A part whose share is whole gets exactly it |
| `Apportion.ZeroWeightGetsZero` | simulation/aethercal_sim/traffic.py:136-153 | Zero weights get zero |
| `Apportion.SplitUnique` | simulation/aethercal_sim/traffic.py:136-153 | Input and shuffle determine the split |
| `TrafficPlan.PlanTwoWeeks` | simulation/aethercal_sim/traffic.py:156-215 | For every start date and every draw the plan fills, in order and numbered from one, the places given by a largest-remainder split per business over the window's ten workdays |
| `TrafficPlan.TenWorkdays` | simulation/aethercal_sim/traffic.py:32-33 | Any fourteen days hold exactly ten workdays |
| `TrafficPlan.PlanIsExact` | simulation/aethercal_sim/traffic.py:156-215 | The plan has slugs * 2 * per_week bookings, numbers 1..n, every day Mon-Fri inside the window |
| `TrafficPlan.PlanIsFair` | simulation/aethercal_sim/traffic.py:180-213 | Each business owns an equal consecutive stretch, and on each day exactly its split's count |
| `TrafficPlan.EmailsDistinct` | simulation/aethercal_sim/traffic.py:108-111 | The number can be recovered from a guest address, whatever the names |
| `TrafficPlan.PlanAddressesDistinct` | simulation/aethercal_sim/traffic.py:187-213 | No two planned guests share an address |
| `Organic.RunInv` | simulation/aethercal_sim/scenarios.py:359-537 | In every interleaving, at every step, every counter, list, latency and tally entry equals the sum of what the intents account for |
| `Organic.CategoriesHoldTheEnded` | simulation/aethercal_sim/scenarios.py:309-330 | At every instant the categories of each leg sum to the intents that have ended |
| `Organic.CategoriesSumToPlan` | simulation/aethercal_sim/scenarios.py:238-330 | At the end the create categories sum to the plan and the follow-up categories to `follow_ups_attempted`: C13's reconciliation is a theorem |
| `Organic.LatenciesAddUp` | simulation/aethercal_sim/scenarios.py:388-532 | Each latency has one sample per request its categories stand for, and the tally one entry per sample of the four |
| `Organic.AccountingPassesIff` | simulation/aethercal_sim/scenarios.py:1706-1754 | C13 passes exactly when something was planned and no intent ended in a finding |
| `Organic.ConflictsAreCollisions` | simulation/aethercal_sim/scenarios.py:280-294 | In a passing run the tally has at most as many 409 conflicts as the two legs have collisions, and as many exactly when every collision was answered with 409 |
| `Organic.CollisionWithoutConflict` | simulation/aethercal_sim/scenarios.py:433-436 | A create answered 500 with the code of a taken slot: C13 passes with one collision and no conflict in the tally |
| `Organic.FollowUpIsOwn` | simulation/aethercal_sim/scenarios.py:462-471 | With distinct addresses, the follow-up looked up for an intent is the one of the booking it made itself, and there is one exactly when it was booked and wants one |
| `Organic.StartAddsWanted` | simulation/aethercal_sim/scenarios.py:462-471 | With distinct addresses, the follow-up phase adds exactly the follow-ups of the booked intents that want one, in order and each of its own booking, and counts them all as attempted |
| `Organic.NeverStuck` | simulation/aethercal_sim/scenarios.py:388-537 | No intent falls off: whatever has not ended can take a step |
| `Races.RunInv` | simulation/aethercal_sim/scenarios.py:594-652 | In every interleaving the shared lists hold exactly what the contenders put there, and every interval is well timed |
| `Races.NobodyIsLost` | simulation/aethercal_sim/scenarios.py:610-652 | Responses and crashes add up to the contenders, intervals to those that passed the barrier, latencies to responses |
| `Races.OverlapIsOfTwo` | simulation/aethercal_sim/scenarios.py:616-642 | Overlapping recorded intervals are those of two different contenders |
| `Races.Classify` | simulation/aethercal_sim/scenarios.py:646-678 | Winners, refusal codes and unexpected answers are exactly those of the responses, followed by the crashes |
| `Races.SingleWinnerIff` | simulation/aethercal_sim/scenarios.py:1588-1627 | The control passes on a finished burst exactly when one contender won and each other was refused with the expected code by a clean conflict |
| `Races.ConcurrencyPassesIff` | simulation/aethercal_sim/scenarios.py:1654-1703 | What C15 establishes exactly: of every name the last contended race overlapped, and every contended race was timed |
| `Races.ConcurrencyPassesWhenNamed` | simulation/aethercal_sim/scenarios.py:1654-1703 | With distinct names: a contended race ran and each of them had two requests in flight at once |
| `Races.SharedNameHidesRace` | simulation/aethercal_sim/scenarios.py:1677-1680 | Any queue goes unnoticed behind a later passing race of its name |
| `Races.ConcurrencyNeedsNames` | simulation/aethercal_sim/scenarios.py:1677-1680 | A concrete pair of races where C15 passes over a queue |
| `Confirmations.ConfirmationsByRecipient` | simulation/aethercal_sim/__main__.py:626-655 | Each address is mapped to exactly the confirmations sent to it, in mailbox order |
| `Confirmations.SupersedingNoticesByRecipient` | simulation/aethercal_sim/__main__.py:587-604 | Each address is mapped to the number of cancellations and reschedules sent to it |
| `Confirmations.Poll` | simulation/aethercal_sim/__main__.py:443-482 | Polling ends at the first poll whose read broke, settled or ran out of time, with the groups and the match count of that read |
| `Confirmations.SettledMeansThreeReadsAgree` | simulation/aethercal_sim/__main__.py:462-478 | A settled mailbox with anything booked showed the same messages in three reads running |
| `Confirmations.MeasureConfirmations` | simulation/aethercal_sim/__main__.py:415-558 | Every field of the coverage and every delay is the one its definition over the last read gives |
| `Confirmations.FatesPartition` | simulation/aethercal_sim/__main__.py:449-532 | Both loops partition the bookings: matched, duplicated, superseded and unaccounted; and the matched ones into timed, negative and collided |
| `Confirmations.WorstIsWorst` | simulation/aethercal_sim/__main__.py:527-531 | The worst negative delay is the least of the negative ones and one of them, and zero exactly without any |
| `Confirmations.CoverageReconciles` | simulation/aethercal_sim/scenarios.py:1965-1978 | The identity C14 asserts is a theorem, and no published delay is negative |
| `Confirmations.CoveragePassesIff` | simulation/aethercal_sim/scenarios.py:1934-2060 | C14 passes exactly when the read was whole and readable, something was booked, every guest was told once or about a change, and no two bookings share a calendar identity |
| `Confirmations.PassMeansWholeSample` | simulation/aethercal_sim/scenarios.py:1934-2060 | A pass leaves one delay for every booking that was not superseded |
| `Verdict.MeasuredIff` | simulation/aethercal_sim/report.py:82-135 | MEASURED exactly when every required id appeared and every control ran and passed |
| `Verdict.MoreControlsNeverHelp` | simulation/aethercal_sim/report.py:120-135 | Once the required ids are there, no further control improves the verdict |
| `Verdict.MeasuredMeansOneWinner` | simulation/aethercal_sim/report.py:120-135 | A measured run's same-slot burst had one success, every other contender refused for the taken slot, none crashed or lost |
| `Verdict.MeasuredMeansExplained` | simulation/aethercal_sim/report.py:120-135 | Every planned intent of a measured run ended in ordinary traffic and the sums reconcile |
| `Verdict.MeasuredMeansConfirmed` | simulation/aethercal_sim/report.py:120-135 | A measured run read the whole mailbox, told every guest, and has one delay for each booking not superseded |
| `Verdict.MeasuredMeansOverlapped` | simulation/aethercal_sim/report.py:120-135 | Of the finished, differently named bursts of a measured run some were contended, and in each of those two different contenders were in flight at once |
| `Verdict.MeasuredMeans` | simulation/aethercal_sim/report.py:120-135 | All of these together, over the bookings the organic phase filed and bursts that include the same-slot one |
| `LayoutShift.Accumulator.RecordCls` | e2e/src/cwv.ts:119-134 | The callback over the four captured variables, as the fold its chunk calls for |
| `LayoutShift.Measure` | e2e/src/cwv.ts:115-151 | The result depends only on the whole stream, not on its chunks or the final drain |
| `LayoutShift.ClsIsLargestWindow` | e2e/src/cwv.ts:112-134 | For positive shifts the result is the largest total of a greedy session window |
| `LayoutShift.WindowsAreGreedy` | e2e/src/cwv.ts:112-134 | The windows make up the stream in order, have gaps of at most 1000 ms and span at most 5000 ms, and none could have taken the next one's first shift |
| `LayoutShift.GreedyUnique` | e2e/src/cwv.ts:112-134 | There is only one such partition |
| `LayoutShift.ClsBounds` | e2e/src/cwv.ts:112-134 | The result lies between the largest single shift and the lifetime sum |
| `LayoutShift.ClsIsLargestSession` | e2e/src/cwv.ts:119-134 | With shifts of value zero too: such a shift prolongs a window but never opens one |
| `LayoutShift.GreedyIsSessionsIff` | e2e/src/cwv.ts:119-134 | The greedy windows are the accumulator's sessions exactly when none of them begins with a shift of value zero |
| `LayoutShift.ZeroShiftOpensNoWindow` | e2e/src/cwv.ts:119-134 | A non-negative stream in order of time with a leading zero shift, which browsers do not report, where the result exceeds the greedy reading's |
| `Passwords.RoundTrip` | apps/server/src/aethercal/server/passwords.py:45-96 | The parser reads back exactly the count, salt and key the printer wrote |
| `Passwords.ParseNormalises` | apps/server/src/aethercal/server/passwords.py:78-96 | Whatever is accepted is in range and survives being printed again |
| `Passwords.PrintUndoesParseIff` | apps/server/src/aethercal/server/passwords.py:45-96 | Of the accepted strings, printing what was parsed gives back exactly the canonical ones: plain decimal count, lower-case hexadecimal salt and key |
| `Passwords.PlusSignAlsoAccepted` | apps/server/src/aethercal/server/passwords.py:85-88 | Every hash in range has an accepted spelling that is not the printed one |
| `Passwords.VerifyMinted` | apps/server/src/aethercal/server/passwords.py:45-70 | Minting succeeds exactly within the bounds, and a minted hash accepts exactly the passwords that derive the same key |
| `Text.ParseDecimal` | apps/server/src/aethercal/server/passwords.py:85-88 | `int()` reads back what `str()` prints |

## Left out

- Floating-point rounding: shares, delays, times and shift values are exact; `allocate_by_weight` in
  doubles may place a unit differently when two fractions are closer than the rounding error.
- `OutboxClaims.RunInv`: which rows are voidable or may be erased, the order and limit of a plan, payloads and the provider's answers are arbitrary; a provider call is the time between a claim and its settle, and may take any time; skip reasons and time stamps of attempts are not kept.
- `OutboxClaims.NeverStaleIff`: a pass's name is given; that the nonce `new_worker_id` draws is fresh is a matter of chance.
- `Slots.NeverDoubleBooked`: a booking is made on the offer it saw; the constraint by which the database decides between two requests at once, daily caps, and the cache of the external calendar are not part of this model.
- `Slots.AvailableIntervals`: time zones are an arbitrary conversion of wall time, so what a clock change does to it is not stated; dates do not end at the year 9999, and instants are whole microseconds without a range.
- Recurring events, calendar export, payments, webhooks, privacy and the rest of the booking service.
- PBKDF2, HMAC's constant-time comparison and the random salt: the derivation is any function, the salt any 16 bytes.
- `int()` beyond ASCII digits and whitespace, its 4300-digit limit, and Unicode case mapping: text is ASCII.
- MIME parsing, transfer decoding and `splitlines`: a message has no calendar part, an undecodable one, or its physical lines.
- JSON decoding: envelopes and fields are given by what the code tests of them.
- `RateLimiter.Limiter.Allow`: `max_keys` is a natural number, because with a negative one the source's eviction loop ends in an exception on an empty map; `key_count` and `reset` are test seams.
- `OutboxSampler.StopFreezes`: safety only; that a join or a `pause` ever returns needs fairness of the scheduler, and exceptions that are not `Exception`s are not modelled.
- `OutboxSampler.StopsAgree`: the wording of the notes `stop` and a failed scrape leave is not modelled, only that they are there.
- `Organic.RunInv`: the workers are not limited in number, which allows more interleavings than the pool does; messages kept for broken reads and unreadable bodies are represented by their intent.
- `Races.RunInv`: whether the barrier lets a contender through is arbitrary for each of them, which includes every way the library's barrier can break; the clock starts at zero.
- `Confirmations.MeasureConfirmations`: clock readings are inputs, with one poll after which the timeout is up; the page size and the wording of the read's problem are only displayed and not modelled.
- `TrafficPlan.PlanTwoWeeks`: which name, locale, zone or follow-up is drawn is arbitrary, so the shares of those draws are not stated; dates do not end at the year 9999.
- `Mailbox.HydrateInvites`: why a source could not be fetched is not distinguished.
- The other controls (C1-C9, C11, C12): each compares numbers that a live service reported, which this model would have to take as given.
- The report renderer, the command line, stack checks, the booking page's views and middleware, and the other e2e helpers: they format text, start processes or drive a browser.
