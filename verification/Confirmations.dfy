/**
  Matching every created booking to the one e-mail that confirms it: polling the mailbox until it is
  quiet, pairing by recipient and calendar identity, and control C14 over what came of it.
 */
module Confirmations {
  import opened ICalendar
  import opened Mailbox
  import opened Organic
  import Text

  // ------------------------------------------------------------------
  // Grouping by recipient
  // ------------------------------------------------------------------

  datatype Notice = Notice(message: Message, invite: CalendarInvite)

  /** The confirmations sent to `address`, in the order of the mailbox. */
  function ConfirmationsTo(messages: seq<Message>, address: string): seq<Notice> {
    if messages == [] then []
    else
      var rest, m := ConfirmationsTo(messages[..|messages| - 1], address), messages[|messages| - 1];
      if m.to == address && m.invite.Identity? && InviteRole(m.invite) == Confirmation
      then rest + [Notice(m, m.invite.invite)] else rest
  }

  /** How many notices that retire a confirmation were sent to `address`. */
  function SupersedingTo(messages: seq<Message>, address: string): nat {
    if messages == [] then 0
    else
      var m := messages[|messages| - 1];
      SupersedingTo(messages[..|messages| - 1], address)
      + if m.to == address && InviteRole(m.invite) == Superseding then 1 else 0
  }

  function NoticesAt(grouped: map<string, seq<Notice>>, address: string): seq<Notice> {
    if address in grouped then grouped[address] else []
  }

  function CountAt(grouped: map<string, nat>, address: string): nat {
    if address in grouped then grouped[address] else 0
  }

  lemma ToSnoc(messages: seq<Message>, m: Message, address: string)
    ensures ConfirmationsTo(messages + [m], address) == ConfirmationsTo(messages, address)
      + if m.to == address && m.invite.Identity? && InviteRole(m.invite) == Confirmation
        then [Notice(m, m.invite.invite)] else []
    ensures SupersedingTo(messages + [m], address) == SupersedingTo(messages, address)
      + if m.to == address && InviteRole(m.invite) == Superseding then 1 else 0
  {
    assert (messages + [m])[..|messages + [m]| - 1] == messages;
  }

  ghost predicate GroupsConfirmations(grouped: map<string, seq<Notice>>, messages: seq<Message>) {
    forall address: string :: NoticesAt(grouped, address) == ConfirmationsTo(messages, address)
  }

  ghost predicate GroupsSuperseding(grouped: map<string, nat>, messages: seq<Message>) {
    forall address: string :: CountAt(grouped, address) == SupersedingTo(messages, address)
  }

  lemma {:induction false} ConfirmationsSnoc(
    before: map<string, seq<Notice>>, grouped: map<string, seq<Notice>>, messages: seq<Message>, m: Message)
    requires GroupsConfirmations(before, messages)
    requires grouped ==
             if m.invite.Identity? && InviteRole(m.invite) == Confirmation
             then before[m.to := NoticesAt(before, m.to) + [Notice(m, m.invite.invite)]] else before
    ensures GroupsConfirmations(grouped, messages + [m])
  {
    forall address: string ensures NoticesAt(grouped, address) == ConfirmationsTo(messages + [m], address) {
      assert NoticesAt(before, address) == ConfirmationsTo(messages, address);
      ToSnoc(messages, m, address);
    }
  }

  lemma {:induction false} SupersedingSnoc(
    before: map<string, nat>, grouped: map<string, nat>, messages: seq<Message>, m: Message)
    requires GroupsSuperseding(before, messages)
    requires grouped == if InviteRole(m.invite) == Superseding then
        before[m.to := CountAt(before, m.to) + 1] else before
    ensures GroupsSuperseding(grouped, messages + [m])
  {
    forall address: string ensures CountAt(grouped, address) == SupersedingTo(messages + [m], address) {
      assert CountAt(before, address) == SupersedingTo(messages, address);
      ToSnoc(messages, m, address);
    }
  }

  method ConfirmationsByRecipient(messages: seq<Message>) returns (grouped: map<string, seq<Notice>>)
    ensures GroupsConfirmations(grouped, messages)
  {
    grouped := map[];
    for i := 0 to |messages|
      invariant GroupsConfirmations(grouped, messages[..i])
    {
      var m := messages[i];
      ghost var before := grouped;
      if m.invite.Identity? && InviteRole(m.invite) == Confirmation {
        grouped := grouped[m.to := NoticesAt(grouped, m.to) + [Notice(m, m.invite.invite)]];
      }
      ConfirmationsSnoc(before, grouped, messages[..i], m);
      assert messages[..i + 1] == messages[..i] + [m];
    }
    assert messages[..|messages|] == messages;
  }

  method SupersedingNoticesByRecipient(messages: seq<Message>) returns (grouped: map<string, nat>)
    ensures GroupsSuperseding(grouped, messages)
  {
    grouped := map[];
    for i := 0 to |messages|
      invariant GroupsSuperseding(grouped, messages[..i])
    {
      var m := messages[i];
      ghost var before := grouped;
      if InviteRole(m.invite) == Superseding {
        grouped := grouped[m.to := CountAt(grouped, m.to) + 1];
      }
      SupersedingSnoc(before, grouped, messages[..i], m);
      assert messages[..i + 1] == messages[..i] + [m];
    }
    assert messages[..|messages|] == messages;
  }

  // ------------------------------------------------------------------
  // The fate of a booking
  // ------------------------------------------------------------------

  function Address(ref: BookedRef): string { Text.Lower(ref.guestEmail) }

  function FoundFor(messages: seq<Message>, ref: BookedRef): seq<Notice> {
    ConfirmationsTo(messages, Address(ref))
  }

  predicate IsMatched(messages: seq<Message>, ref: BookedRef) { |FoundFor(messages, ref)| == 1 }

  function UidOf(messages: seq<Message>, ref: BookedRef): string
    requires IsMatched(messages, ref)
  {
    FoundFor(messages, ref)[0].invite.uid
  }

  /** From the request to the confirmation, in milliseconds. */
  function DeltaOf(notice: Notice, ref: BookedRef): real {
    (notice.message.created - ref.sentAtWall) * 1000.0
  }

  datatype Fate = Duplicated | Superseded | Unaccounted | Collided | Negative | Timed

  /** A booking among `earlier` was matched to the calendar identity `uid`. */
  ghost predicate Claimed(messages: seq<Message>, earlier: seq<BookedRef>, uid: string) {
    exists j :: 0 <= j < |earlier| && IsMatched(messages, earlier[j]) && UidOf(messages, earlier[j]) == uid
  }

  ghost function FateOf(messages: seq<Message>, earlier: seq<BookedRef>, ref: BookedRef): Fate {
    var found := FoundFor(messages, ref);
    if |found| > 1 then Duplicated
    else if found == [] then if SupersedingTo(messages, Address(ref)) > 0 then Superseded else Unaccounted
    else if Claimed(messages, earlier, found[0].invite.uid) then Collided
    else if DeltaOf(found[0], ref) < 0.0 then Negative
    else Timed
  }

  ghost function CountFate(messages: seq<Message>, booked: seq<BookedRef>, fate: Fate): nat {
    if booked == [] then 0
    else
      var n := |booked| - 1;
      CountFate(messages, booked[..n], fate) + if FateOf(messages, booked[..n], booked[n]) == fate then 1 else 0
  }

  /** The delays of the bookings that count towards the latency. */
  ghost function Delays(messages: seq<Message>, booked: seq<BookedRef>): seq<real> {
    if booked == [] then []
    else
      var n := |booked| - 1;
      Delays(messages, booked[..n])
      + if FateOf(messages, booked[..n], booked[n]) == Timed
        then [DeltaOf(FoundFor(messages, booked[n])[0], booked[n])] else []
  }

  function Least(a: real, b: real): real { if b < a then b else a }

  /** The most negative of the delays that came back negative, or zero. */
  ghost function WorstNegative(messages: seq<Message>, booked: seq<BookedRef>): real {
    if booked == [] then 0.0
    else
      var n := |booked| - 1;
      var worst := WorstNegative(messages, booked[..n]);
      if FateOf(messages, booked[..n], booked[n]) == Negative
      then Least(worst, DeltaOf(FoundFor(messages, booked[n])[0], booked[n])) else worst
  }

  function CountMatched(messages: seq<Message>, booked: seq<BookedRef>): nat {
    if booked == [] then 0
    else CountMatched(messages, booked[..|booked| - 1]) + if IsMatched(messages, booked[|booked| - 1]) then 1 else 0
  }

  /** Bookings whose guest was told something. */
  function CountTold(messages: seq<Message>, booked: seq<BookedRef>): nat {
    if booked == [] then 0
    else
      var ref := booked[|booked| - 1];
      CountTold(messages, booked[..|booked| - 1])
      + if FoundFor(messages, ref) != [] || SupersedingTo(messages, Address(ref)) > 0 then 1 else 0
  }

  // ------------------------------------------------------------------
  // Both loops partition the bookings
  // ------------------------------------------------------------------

  /** Every created booking is matched, duplicated, superseded or unaccounted, and nothing else. */
  lemma {:induction false} FatesPartition(messages: seq<Message>, booked: seq<BookedRef>)
    ensures CountMatched(messages, booked) + CountFate(messages, booked, Duplicated)
      + CountFate(messages, booked, Superseded) + CountFate(messages, booked, Unaccounted) == |booked|
    ensures |Delays(messages, booked)| == CountFate(messages, booked, Timed)
    ensures |Delays(messages, booked)| + CountFate(messages, booked, Negative) + CountFate(messages, booked, Collided)
      == CountMatched(messages, booked)
    ensures forall k :: 0 <= k < |Delays(messages, booked)| ==> Delays(messages, booked)[k] >= 0.0
  {
    if booked != [] {
      FatesPartition(messages, booked[..|booked| - 1]);
    }
  }

  /** The fate of the i-th booking. */
  ghost function FateAt(messages: seq<Message>, booked: seq<BookedRef>, i: nat): Fate
    requires i < |booked|
  {
    FateOf(messages, booked[..i], booked[i])
  }

  lemma FateAtInit(messages: seq<Message>, booked: seq<BookedRef>, n: nat, i: nat)
    requires i < n <= |booked|
    ensures FateAt(messages, booked[..n], i) == FateAt(messages, booked, i)
  {
    assert booked[..n][..i] == booked[..i];
  }

  lemma {:induction false} NoneFated(messages: seq<Message>, booked: seq<BookedRef>, fate: Fate)
    ensures CountFate(messages, booked, fate) == 0 <==>
      forall i :: 0 <= i < |booked| ==> FateAt(messages, booked, i) != fate
  {
    if booked != [] {
      var n := |booked| - 1;
      NoneFated(messages, booked[..n], fate);
      forall i | 0 <= i < n ensures FateAt(messages, booked[..n], i) == FateAt(messages, booked, i) {
        FateAtInit(messages, booked, n, i);
      }
      assert FateAt(messages, booked, n) == FateOf(messages, booked[..n], booked[n]);
    }
  }

  /** The worst negative delay is one of those delays, and the least, and zero exactly without any. */
  lemma {:induction false} WorstIsWorst(messages: seq<Message>, booked: seq<BookedRef>)
    ensures WorstNegative(messages, booked) <= 0.0
    ensures WorstNegative(messages, booked) == 0.0 <==> CountFate(messages, booked, Negative) == 0
    ensures forall i :: 0 <= i < |booked| && FateAt(messages, booked, i) == Negative ==>
      WorstNegative(messages, booked) <= DeltaOf(FoundFor(messages, booked[i])[0], booked[i])
    ensures CountFate(messages, booked, Negative) > 0 ==>
      exists i :: 0 <= i < |booked| && FateAt(messages, booked, i) == Negative
        && WorstNegative(messages, booked) == DeltaOf(FoundFor(messages, booked[i])[0], booked[i])
  {
    if booked != [] {
      var n := |booked| - 1;
      var init := booked[..n];
      WorstIsWorst(messages, init);
      forall i | 0 <= i < n ensures FateAt(messages, init, i) == FateAt(messages, booked, i) && init[i] == booked[i] {
        FateAtInit(messages, booked, n, i);
      }
      assert FateAt(messages, booked, n) == FateOf(messages, init, booked[n]);
      if && CountFate(messages, booked, Negative) > 0
         && WorstNegative(messages, booked) == WorstNegative(messages, init) < 0.0
      {
        var i :| 0 <= i < |init| && FateAt(messages, init, i) == Negative
          && WorstNegative(messages, init) == DeltaOf(FoundFor(messages, init[i])[0], init[i]);
        assert FateAt(messages, booked, i) == Negative;
      }
    }
  }

  // ------------------------------------------------------------------
  // Polling
  // ------------------------------------------------------------------

  const QUIET_POLLS := 2

  function Identities(read: MailboxRead): set<string> {
    set i | 0 <= i < |read.messages| :: read.messages[i].id
  }

  /** The messages seen by poll `n`; before the first poll, none. */
  function SeenAt(polls: nat -> MailboxRead, n: nat): set<string> {
    if n == 0 then {} else Identities(polls(n))
  }

  /** For how many polls up to the n-th the messages have not changed. */
  function QuietFor(polls: nat -> MailboxRead, n: nat): nat {
    if n == 0 then 0 else if SeenAt(polls, n) == SeenAt(polls, n - 1) then QuietFor(polls, n - 1) + 1 else 0
  }

  /** Every guest was told something, and nothing new arrived for two polls. */
  predicate Settled(polls: nat -> MailboxRead, booked: seq<BookedRef>, n: nat) {
    CountTold(polls(n).messages, booked) >= |booked| && QuietFor(polls, n) >= QUIET_POLLS
  }

  predicate Stops(polls: nat -> MailboxRead, booked: seq<BookedRef>, elapsed: nat -> real, timeout: real, n: nat) {
    !polls(n).complete || Settled(polls, booked, n) || elapsed(n) >= timeout
  }

  /** Poll `n` is the first after which polling stops. */
  ghost predicate IsLastPoll(
    polls: nat -> MailboxRead, booked: seq<BookedRef>, elapsed: nat -> real, timeout: real, n: nat) {
    && n >= 1 && Stops(polls, booked, elapsed, timeout, n)
    && (forall k :: 1 <= k < n ==> !Stops(polls, booked, elapsed, timeout, k))
  }

  method CountBooked(confirmations: map<string, seq<Notice>>, supersededBy: map<string, nat>,
      ghost messages: seq<Message>, booked: seq<BookedRef>)
    returns (matched: nat, accounted: nat)
    requires GroupsConfirmations(confirmations, messages) && GroupsSuperseding(supersededBy, messages)
    ensures matched == CountMatched(messages, booked) && accounted == CountTold(messages, booked)
  {
    matched, accounted := 0, 0;
    for i := 0 to |booked|
      invariant matched == CountMatched(messages, booked[..i]) && accounted == CountTold(messages, booked[..i])
    {
      var found := NoticesAt(confirmations, Address(booked[i]));
      assert booked[..i + 1][..i] == booked[..i];
      if |found| == 1 {
        matched := matched + 1;
      }
      if found != [] || CountAt(supersededBy, Address(booked[i])) > 0 {
        accounted := accounted + 1;
      }
    }
    assert booked[..|booked|] == booked;
  }

  /**
    Polls until the mailbox settles, the read breaks or time is up; `elapsed` is the time after each poll,
    and up by `limit`.
   */
  method Poll(polls: nat -> MailboxRead, booked: seq<BookedRef>, elapsed: nat -> real, timeout: real, ghost limit: nat)
    returns (attempts: nat, confirmations: map<string, seq<Notice>>, supersededBy: map<string, nat>, matched: nat)
    requires limit >= 1 && elapsed(limit) >= timeout
    ensures IsLastPoll(polls, booked, elapsed, timeout, attempts)
    ensures GroupsConfirmations(confirmations, polls(attempts).messages)
    ensures GroupsSuperseding(supersededBy, polls(attempts).messages)
    ensures matched == CountMatched(polls(attempts).messages, booked)
  {
    var lastIdentities: set<string> := {};
    var quietPolls := 0;
    attempts := 0;
    while true
      invariant 0 <= attempts < limit
      invariant lastIdentities == SeenAt(polls, attempts) && quietPolls == QuietFor(polls, attempts)
      invariant forall k :: 1 <= k <= attempts ==> !Stops(polls, booked, elapsed, timeout, k)
      decreases limit - attempts
    {
      attempts := attempts + 1;
      var read := polls(attempts);
      confirmations := ConfirmationsByRecipient(read.messages);
      supersededBy := SupersedingNoticesByRecipient(read.messages);
      var accounted;
      matched, accounted := CountBooked(confirmations, supersededBy, read.messages, booked);
      var identities := Identities(read);
      if identities == lastIdentities {
        quietPolls := quietPolls + 1;
      } else {
        quietPolls := 0;
        lastIdentities := identities;
      }
      if !read.complete {
        break;
      }
      if accounted >= |booked| && quietPolls >= QUIET_POLLS {
        break;
      }
      if elapsed(attempts) >= timeout {
        break;
      }
    }
  }

  lemma {:induction false} QuietMeansSame(polls: nat -> MailboxRead, n: nat)
    requires QuietFor(polls, n) >= 2
    ensures n >= 2 && SeenAt(polls, n) == SeenAt(polls, n - 1) == SeenAt(polls, n - 2)
  {
  }

  lemma {:induction false} ToldNeedsMessages(booked: seq<BookedRef>)
    ensures CountTold([], booked) == 0
  {
    if booked != [] {
      ToldNeedsMessages(booked[..|booked| - 1]);
    }
  }

  /** When polling stops because the mailbox settled, three reads in a row showed the same messages. */
  lemma SettledMeansThreeReadsAgree(polls: nat -> MailboxRead, booked: seq<BookedRef>, n: nat)
    requires n >= 1 && Settled(polls, booked, n) && booked != []
    ensures n >= 3 && Identities(polls(n)) == Identities(polls(n - 1)) == Identities(polls(n - 2))
  {
    QuietMeansSame(polls, n);
    ToldNeedsMessages(booked);
    assert polls(n).messages[0].id in Identities(polls(n));
  }

  // ------------------------------------------------------------------
  // Reconciling
  // ------------------------------------------------------------------

  /** The counters of the second loop. */
  datatype Counts = Counts(
    latency: seq<real>, negatives: nat, worstNegative: real, duplicates: nat, superseded: nat, unaccounted: nat,
    collided: nat)

  ghost predicate Counted(c: Counts, messages: seq<Message>, booked: seq<BookedRef>) {
    && c.latency == Delays(messages, booked)
    && c.negatives == CountFate(messages, booked, Negative)
    && c.worstNegative == WorstNegative(messages, booked)
    && c.duplicates == CountFate(messages, booked, Duplicated)
    && c.superseded == CountFate(messages, booked, Superseded)
    && c.unaccounted == CountFate(messages, booked, Unaccounted)
    && c.collided == CountFate(messages, booked, Collided)
  }

  ghost predicate SeenUids(seen: set<string>, messages: seq<Message>, booked: seq<BookedRef>) {
    forall uid: string :: uid in seen <==> Claimed(messages, booked, uid)
  }

  /** What one booking adds to the counters. */
  function CountOne(c: Counts, fate: Fate, delay: real): Counts {
    match fate
    case Duplicated => c.(duplicates := c.duplicates + 1)
    case Superseded => c.(superseded := c.superseded + 1)
    case Unaccounted => c.(unaccounted := c.unaccounted + 1)
    case Collided => c.(collided := c.collided + 1)
    case Negative => c.(negatives := c.negatives + 1, worstNegative := Least(c.worstNegative, delay))
    case Timed => c.(latency := c.latency + [delay])
  }

  lemma {:induction false} CountedSnoc(
    c: Counts, messages: seq<Message>, booked: seq<BookedRef>, ref: BookedRef, fate: Fate, delay: real)
    requires Counted(c, messages, booked) && fate == FateOf(messages, booked, ref)
    requires fate == Timed || fate == Negative ==> delay == DeltaOf(FoundFor(messages, ref)[0], ref)
    ensures Counted(CountOne(c, fate, delay), messages, booked + [ref])
  {
    CountFateSnoc(messages, booked, ref);
    DelaysSnoc(messages, booked, ref);
  }

  lemma {:induction false} CountFateSnoc(messages: seq<Message>, booked: seq<BookedRef>, ref: BookedRef)
    ensures forall fate :: CountFate(messages, booked + [ref], fate)
              == CountFate(messages, booked, fate) + if FateOf(messages, booked, ref) == fate then 1 else 0
  {
    assert (booked + [ref])[..|booked + [ref]| - 1] == booked;
  }

  lemma {:induction false} DelaysSnoc(messages: seq<Message>, booked: seq<BookedRef>, ref: BookedRef)
    ensures var fate, found := FateOf(messages, booked, ref), FoundFor(messages, ref);
      && (fate.Timed? || fate.Negative? ==> found != [])
      && Delays(messages, booked + [ref])
         == Delays(messages, booked) + (if fate.Timed? then [DeltaOf(found[0], ref)] else [])
      && WorstNegative(messages, booked + [ref])
         == if fate.Negative? then Least(WorstNegative(messages, booked), DeltaOf(found[0], ref))
            else WorstNegative(messages, booked)
  {
    assert (booked + [ref])[..|booked + [ref]| - 1] == booked;
  }

  lemma SeenUidsSnoc(seen: set<string>, messages: seq<Message>, booked: seq<BookedRef>, ref: BookedRef)
    requires SeenUids(seen, messages, booked)
    ensures SeenUids(if IsMatched(messages, ref) then seen + {UidOf(messages, ref)} else seen, messages, booked + [ref])
  {
    var after := booked + [ref];
    assert after[|booked|] == ref && forall j :: 0 <= j < |booked| ==> after[j] == booked[j];
    forall uid: string
      ensures Claimed(messages, after, uid) <==>
        Claimed(messages, booked, uid) || (IsMatched(messages, ref) && UidOf(messages, ref) == uid)
    {
      if Claimed(messages, booked, uid) {
        var j :| 0 <= j < |booked| && IsMatched(messages, booked[j]) && UidOf(messages, booked[j]) == uid;
        assert IsMatched(messages, after[j]) && UidOf(messages, after[j]) == uid;
      }
    }
  }

  /** The fate of one booking, as the second loop finds it. */
  method Judge(found: seq<Notice>, supersededBy: nat, seen: set<string>, ref: BookedRef,
      ghost messages: seq<Message>, ghost booked: seq<BookedRef>)
    returns (fate: Fate)
    requires found == FoundFor(messages, ref) && supersededBy == SupersedingTo(messages, Address(ref))
    requires SeenUids(seen, messages, booked)
    ensures fate == FateOf(messages, booked, ref)
  {
    if |found| > 1 {
      return Duplicated;
    }
    if found == [] {
      if supersededBy > 0 {
        return Superseded;
      }
      return Unaccounted;
    }
    if found[0].invite.uid in seen {
      return Collided;
    }
    if DeltaOf(found[0], ref) < 0.0 {
      return Negative;
    }
    return Timed;
  }

  method Reconcile(confirmations: map<string, seq<Notice>>, supersededBy: map<string, nat>,
      ghost messages: seq<Message>, booked: seq<BookedRef>)
    returns (c: Counts)
    requires GroupsConfirmations(confirmations, messages) && GroupsSuperseding(supersededBy, messages)
    ensures Counted(c, messages, booked)
  {
    c := Counts([], 0, 0.0, 0, 0, 0, 0);
    var seen: set<string> := {};
    for i := 0 to |booked|
      invariant Counted(c, messages, booked[..i]) && SeenUids(seen, messages, booked[..i])
    {
      var ref := booked[i];
      var found := NoticesAt(confirmations, Address(ref));
      var fate := Judge(found, CountAt(supersededBy, Address(ref)), seen, ref, messages, booked[..i]);
      var delay := if |found| == 1 then DeltaOf(found[0], ref) else 0.0;
      CountedSnoc(c, messages, booked[..i], ref, fate, delay);
      SeenUidsSnoc(seen, messages, booked[..i], ref);
      assert booked[..i + 1] == booked[..i] + [ref];
      if |found| == 1 {
        seen := seen + {found[0].invite.uid};
      }
      c := CountOne(c, fate, delay);
    }
    assert booked[..|booked|] == booked;
  }

  // ------------------------------------------------------------------
  // The coverage and control C14
  // ------------------------------------------------------------------

  datatype Coverage = Coverage(
    created: int, matched: int, negativeDeltas: int, worstNegativeMs: real, readComplete: bool, reportedTotal: int,
    attempts: int, waitedSeconds: real,
    duplicateConfirmations: int, collidingUids: int, messagesWithInvite: int, unreadableInvites: int,
    superseded: int, unaccounted: int)

  function CountUnreadable(messages: seq<Message>): nat {
    if messages == [] then 0
    else
      CountUnreadable(messages[..|messages| - 1])
      + if InviteRole(messages[|messages| - 1].invite) == Unreadable then 1 else 0
  }

  function CountReadable(messages: seq<Message>): nat {
    if messages == [] then 0
    else CountReadable(messages[..|messages| - 1]) + if messages[|messages| - 1].invite.Identity? then 1 else 0
  }

  /** What is measured over one read of the mailbox. */
  ghost predicate Measures(latency: seq<real>, c: Coverage, read: MailboxRead, booked: seq<BookedRef>) {
    var messages := read.messages;
    && latency == Delays(messages, booked)
    && c.created == |booked|
    && c.matched == CountMatched(messages, booked)
    && c.negativeDeltas == CountFate(messages, booked, Negative)
    && c.worstNegativeMs == WorstNegative(messages, booked)
    && c.duplicateConfirmations == CountFate(messages, booked, Duplicated)
    && c.collidingUids == CountFate(messages, booked, Collided)
    && c.superseded == CountFate(messages, booked, Superseded)
    && c.unaccounted == CountFate(messages, booked, Unaccounted)
    && c.readComplete == read.complete && c.reportedTotal == read.reportedTotal
    && c.messagesWithInvite == CountReadable(messages) && c.unreadableInvites == CountUnreadable(messages)
  }

  /** `ended` is the time at the end of it all. */
  method MeasureConfirmations(polls: nat -> MailboxRead, booked: seq<BookedRef>, elapsed: nat -> real, timeout: real,
      ended: real, ghost limit: nat)
    returns (latency: seq<real>, read: MailboxRead, coverage: Coverage)
    requires limit >= 1 && elapsed(limit) >= timeout
    ensures coverage.attempts >= 1 && IsLastPoll(polls, booked, elapsed, timeout, coverage.attempts)
    ensures read == polls(coverage.attempts) && coverage.waitedSeconds == ended
    ensures Measures(latency, coverage, read, booked)
  {
    var attempts, confirmations, supersededBy, matched := Poll(polls, booked, elapsed, timeout, limit);
    read := polls(attempts);
    var c := Reconcile(confirmations, supersededBy, read.messages, booked);
    latency := c.latency;
    coverage := Coverage(
      |booked|, matched, c.negatives, c.worstNegative, read.complete, read.reportedTotal, attempts, ended,
      c.duplicates, c.collided, CountReadable(read.messages), CountUnreadable(read.messages), c.superseded,
      c.unaccounted);
  }

  datatype Reason =
    | NegativeCount | DoesNotReconcile | UnreadableInvites | IncompleteRead | NothingCreated
    | LostMessages | NegativeDeltas | DuplicateConfirmations | CollidingUids

  /** Control C14: the reasons it fails for. */
  function CoverageReasons(c: Coverage): set<Reason> {
    var accounted := c.matched + c.duplicateConfirmations + c.superseded + c.unaccounted;
    var negative :=
      c.matched < 0 || c.duplicateConfirmations < 0 || c.superseded < 0 || c.unaccounted < 0 || c.created < 0;
    (if negative then {NegativeCount} else if accounted != c.created then {DoesNotReconcile} else {})
    + (if c.unreadableInvites != 0 then {UnreadableInvites} else {})
    + (if !c.readComplete then {IncompleteRead} else {})
    + (if c.created <= 0 then {NothingCreated} else {})
    + (if c.unaccounted != 0 then {LostMessages} else {})
    + (if c.negativeDeltas != 0 then {NegativeDeltas} else {})
    + (if c.duplicateConfirmations != 0 then {DuplicateConfirmations} else {})
    + (if c.collidingUids != 0 then {CollidingUids} else {})
  }

  predicate JudgeConfirmationCoverage(c: Coverage) { CoverageReasons(c) == {} }

  lemma CountReasons(c: Coverage)
    ensures NegativeCount in CoverageReasons(c) <==>
      c.matched < 0 || c.duplicateConfirmations < 0 || c.superseded < 0 || c.unaccounted < 0 || c.created < 0
    ensures DoesNotReconcile in CoverageReasons(c) <==>
      NegativeCount !in CoverageReasons(c)
      && c.matched + c.duplicateConfirmations + c.superseded + c.unaccounted != c.created
    ensures NothingCreated in CoverageReasons(c) <==> c.created <= 0
  {
  }

  lemma FieldReasons(c: Coverage)
    ensures UnreadableInvites in CoverageReasons(c) <==> c.unreadableInvites != 0
    ensures IncompleteRead in CoverageReasons(c) <==> !c.readComplete
    ensures LostMessages in CoverageReasons(c) <==> c.unaccounted != 0
    ensures NegativeDeltas in CoverageReasons(c) <==> c.negativeDeltas != 0
    ensures DuplicateConfirmations in CoverageReasons(c) <==> c.duplicateConfirmations != 0
    ensures CollidingUids in CoverageReasons(c) <==> c.collidingUids != 0
  {
  }

  lemma {:induction false} NoReasons(c: Coverage)
    ensures JudgeConfirmationCoverage(c) <==>
      && c.matched + c.superseded == c.created > 0 && c.matched >= 0 && c.superseded >= 0
      && c.duplicateConfirmations == 0 && c.unaccounted == 0 && c.unreadableInvites == 0
      && c.negativeDeltas == 0 && c.collidingUids == 0 && c.readComplete
  {
    CountReasons(c);
    FieldReasons(c);
    assert forall reason :: reason in CoverageReasons(c) ==>
      reason in {NegativeCount, DoesNotReconcile, NothingCreated, UnreadableInvites, IncompleteRead, LostMessages,
                 NegativeDeltas, DuplicateConfirmations, CollidingUids};
  }

  /** The two loops agree: the identity C14 asserts holds for any mailbox and any number of polls. */
  lemma CoverageReconciles(latency: seq<real>, c: Coverage, read: MailboxRead, booked: seq<BookedRef>)
    requires Measures(latency, c, read, booked)
    ensures c.matched + c.duplicateConfirmations + c.superseded + c.unaccounted == c.created
    ensures |latency| + c.negativeDeltas + c.collidingUids == c.matched
    ensures forall k :: 0 <= k < |latency| ==> latency[k] >= 0.0
  {
    FatesPartition(read.messages, booked);
  }

  // ------------------------------------------------------------------
  // What a pass of C14 means
  // ------------------------------------------------------------------

  /** The guest was told: by one confirmation, sent no earlier than the request, or by a notice that retired it. */
  predicate WasTold(messages: seq<Message>, ref: BookedRef) {
    var found := FoundFor(messages, ref);
    if found == [] then SupersedingTo(messages, Address(ref)) > 0
    else |found| == 1 && DeltaOf(found[0], ref) >= 0.0
  }

  ghost predicate DistinctUids(messages: seq<Message>, booked: seq<BookedRef>) {
    forall i, j :: 0 <= i < j < |booked| && IsMatched(messages, booked[i]) && IsMatched(messages, booked[j]) ==>
      UidOf(messages, booked[i]) != UidOf(messages, booked[j])
  }

  ghost predicate AllReadable(messages: seq<Message>) {
    forall i :: 0 <= i < |messages| ==> !messages[i].invite.UnreadableInvite?
  }

  lemma {:induction false} NoneUnreadable(messages: seq<Message>)
    ensures CountUnreadable(messages) == 0 <==> AllReadable(messages)
  {
    if messages != [] {
      var init := messages[..|messages| - 1];
      NoneUnreadable(init);
      assert AllReadable(messages) <==> AllReadable(init) && !messages[|messages| - 1].invite.UnreadableInvite? by {
        assert forall i :: 0 <= i < |init| ==> init[i] == messages[i];
      }
    }
  }

  ghost predicate IsGoodFate(fate: Fate) { fate == Timed || fate == Superseded }

  lemma UidsDistinctIff(messages: seq<Message>, booked: seq<BookedRef>)
    ensures DistinctUids(messages, booked) <==>
      forall i :: 0 <= i < |booked| && IsMatched(messages, booked[i]) ==>
        !Claimed(messages, booked[..i], UidOf(messages, booked[i]))
  {
    if DistinctUids(messages, booked) {
      forall i | 0 <= i < |booked| && IsMatched(messages, booked[i])
        ensures !Claimed(messages, booked[..i], UidOf(messages, booked[i]))
      {
        assert forall j :: 0 <= j < i ==> booked[..i][j] == booked[j];
      }
    } else {
      var i, j :| 0 <= i < j < |booked| && IsMatched(messages, booked[i]) && IsMatched(messages, booked[j])
        && UidOf(messages, booked[i]) == UidOf(messages, booked[j]);
      assert booked[..j][i] == booked[i];
      assert Claimed(messages, booked[..j], UidOf(messages, booked[j]));
    }
  }

  lemma FatesGoodIff(messages: seq<Message>, booked: seq<BookedRef>)
    ensures (forall i :: 0 <= i < |booked| ==> IsGoodFate(FateAt(messages, booked, i)))
      <==> ((forall i :: 0 <= i < |booked| ==> WasTold(messages, booked[i])) && DistinctUids(messages, booked))
  {
    UidsDistinctIff(messages, booked);
    forall i | 0 <= i < |booked|
      ensures IsGoodFate(FateAt(messages, booked, i)) <==>
        WasTold(messages, booked[i])
        && (IsMatched(messages, booked[i]) ==> !Claimed(messages, booked[..i], UidOf(messages, booked[i])))
    {
    }
  }

  lemma OnlyGoodFates(messages: seq<Message>, booked: seq<BookedRef>)
    ensures (forall i :: 0 <= i < |booked| ==> IsGoodFate(FateAt(messages, booked, i)))
      <==> (&& CountFate(messages, booked, Duplicated) == 0 && CountFate(messages, booked, Unaccounted) == 0
            && CountFate(messages, booked, Negative) == 0 && CountFate(messages, booked, Collided) == 0)
  {
    NoneFated(messages, booked, Duplicated);
    NoneFated(messages, booked, Unaccounted);
    NoneFated(messages, booked, Negative);
    NoneFated(messages, booked, Collided);
  }

  /**
    C14 passes exactly when the read was whole and readable, something was booked, every guest was
    told once or about a change instead, and no two bookings share a calendar identity.
   */
  lemma CoveragePassesIff(latency: seq<real>, c: Coverage, read: MailboxRead, booked: seq<BookedRef>)
    requires Measures(latency, c, read, booked)
    ensures JudgeConfirmationCoverage(c) <==>
      && read.complete && AllReadable(read.messages) && booked != []
      && (forall i :: 0 <= i < |booked| ==> WasTold(read.messages, booked[i]))
      && DistinctUids(read.messages, booked)
  {
    NoReasons(c);
    CoverageReconciles(latency, c, read, booked);
    NoneUnreadable(read.messages);
    OnlyGoodFates(read.messages, booked);
    FatesGoodIff(read.messages, booked);
  }

  /** A pass leaves one delay for every booking that was not superseded. */
  lemma PassMeansWholeSample(latency: seq<real>, c: Coverage, read: MailboxRead, booked: seq<BookedRef>)
    requires Measures(latency, c, read, booked) && JudgeConfirmationCoverage(c)
    ensures |latency| == c.created - c.superseded == CountMatched(read.messages, booked)
  {
    NoReasons(c);
    CoverageReconciles(latency, c, read, booked);
  }
}
