/**
  Reading a whole mailbox page by page from a server that may answer anything, and attaching each
  message's calendar identity.
 */
module Mailbox {
  import opened Wrappers
  import Text
  import ICalendar

  const MAX_PAGES := 400

  // ------------------------------------------------------------------
  // What the server answers
  // ------------------------------------------------------------------

  /** A field of a decoded JSON object. */
  datatype Field = Missing | Flag(on: bool) | Number(n: int) | Unexpected

  /** One element of a page. A missing ID or address reads as the empty string. */
  datatype Item = NotAnObject | Envelope(id: string, address: string, subject: string, created: Option<real>)

  datatype Reply =
    | Failed
    | NotADict
    | Page(messagesCount: Field, total: Field, messages: Option<seq<Item>>)

  /** The answer to the n-th request, which asks for the messages from `start` on. */
  type Server = (nat, nat) -> Reply

  datatype Message = Message(to: string, subject: string, created: real, id: string, invite: ICalendar.Reading)

  function CountIn(field: Field): Option<nat> {
    if field.Number? && field.n >= 0 then Some(field.n) else None
  }

  /** The server's own count: `messages_count`, else `total`; a boolean or a negative number is no count. */
  function ReportedTotal(reply: Reply): Option<nat> {
    if !reply.Page? then None
    else if CountIn(reply.messagesCount).Some? then CountIn(reply.messagesCount)
    else CountIn(reply.total)
  }

  function IdOf(item: Item): string {
    if item.Envelope? then item.id else ""
  }

  function Parse(item: Item): Option<Message> {
    if item.Envelope? && item.address != "" && item.created.Some?
    then Some(Message(Text.Lower(item.address), item.subject, item.created.value, item.id, ICalendar.NoInvite))
    else None
  }

  /** The messages among `items`, in order. */
  function Parsed(items: seq<Item>): seq<Message> {
    if items == [] then []
    else
      var rest := Parsed(items[..|items| - 1]);
      match Parse(items[|items| - 1])
      case Some(message) => rest + [message]
      case None => rest
  }

  ghost predicate AllParse(items: seq<Item>) {
    forall i :: 0 <= i < |items| ==> Parse(items[i]).Some?
  }

  // ------------------------------------------------------------------
  // A whole read
  // ------------------------------------------------------------------

  function ItemsOf(reply: Reply): seq<Item> {
    if reply.Page? && reply.messages.Some? then reply.messages.value else []
  }

  function CountOf(reply: Reply): nat {
    match ReportedTotal(reply)
    case Some(n) => n
    case None => 0
  }

  /** Everything on the first `n` pages, when each request starts where the pages before it end. */
  ghost function Served(server: Server, n: nat): seq<Item> {
    if n == 0 then [] else Served(server, n - 1) + ItemsOf(ReplyTo(server, n))
  }

  ghost function ReplyTo(server: Server, n: nat): Reply
    requires n > 0
    decreases n, 0
  {
    server(n, |Served(server, n - 1)|)
  }

  ghost predicate Usable(reply: Reply) {
    ReportedTotal(reply).Some? && reply.messages.Some?
  }

  ghost predicate DistinctIds(items: seq<Item>) {
    && (forall i :: 0 <= i < |items| ==> IdOf(items[i]) != "")
    && (forall i, j :: 0 <= i < j < |items| ==> IdOf(items[i]) != IdOf(items[j]))
  }

  /** The first `n` answers are listings, no message is repeated, and the total never drops. */
  ghost predicate Listed(server: Server, n: nat) {
    && (forall k :: 1 <= k <= n ==> Usable(ReplyTo(server, k)))
    && (forall j, k :: 1 <= j <= k <= n ==> CountOf(ReplyTo(server, j)) <= CountOf(ReplyTo(server, k)))
    && DistinctIds(Served(server, n))
  }

  /** After each of the first `n` pages messages were still missing, and each page brought some. */
  ghost predicate Unfinished(server: Server, n: nat) {
    forall k :: 1 <= k <= n ==>
      ItemsOf(ReplyTo(server, k)) != [] && |Served(server, k)| < CountOf(ReplyTo(server, k))
  }

  /** The first `n` pages are the whole mailbox: as many distinct messages as the last total says. */
  ghost predicate Whole(server: Server, n: nat) {
    && n >= 1
    && Listed(server, n)
    && Unfinished(server, n - 1)
    && |Served(server, n)| == CountOf(ReplyTo(server, n))
  }

  // ------------------------------------------------------------------
  // The read
  // ------------------------------------------------------------------

  datatype Problem =
    | Nothing | RequestFailed | NotAnEnvelope | NoTotal | TotalDropped | MessagesNotAList
    | NoId(at: nat) | Repeated(at: nat) | Overrun | EmptyPage | SomeUnparseable | TooManyPages
    | Unhydrated

  datatype MailboxRead = MailboxRead(
    messages: seq<Message>, complete: bool, reportedTotal: nat, pages: nat, unparseable: nat, problem: Problem)

  /** Page `n` is a listing whose total did not drop. */
  ghost predicate Sound(server: Server, n: nat)
    requires n >= 1
  {
    Usable(ReplyTo(server, n)) && (n > 1 ==> CountOf(ReplyTo(server, n - 1)) <= CountOf(ReplyTo(server, n)))
  }

  /** The ID at `at` is the first one that is missing or repeated. */
  ghost predicate FirstBadId(items: seq<Item>, at: nat) {
    at < |items| && DistinctIds(items[..at]) && !DistinctIds(items[..at + 1])
  }

  /** `problem` is the first fault of page `n`. */
  ghost predicate Faulty(server: Server, n: nat, problem: Problem)
    requires n >= 1
  {
    var reply, items := ReplyTo(server, n), Served(server, n);
    match problem
    case RequestFailed => reply.Failed?
    case NotAnEnvelope => reply.NotADict?
    case NoTotal => reply.Page? && ReportedTotal(reply).None?
    case TotalDropped => ReportedTotal(reply).Some? && n > 1 && CountOf(reply) < CountOf(ReplyTo(server, n - 1))
    case MessagesNotAList =>
      && ReportedTotal(reply).Some? && reply.messages.None?
      && (n > 1 ==> CountOf(ReplyTo(server, n - 1)) <= CountOf(reply))
    case NoId(at) => Sound(server, n) && FirstBadId(items, at) && IdOf(items[at]) == ""
    case Repeated(at) => Sound(server, n) && FirstBadId(items, at) && IdOf(items[at]) != ""
    case Overrun => Listed(server, n) && |items| > CountOf(reply)
    case EmptyPage => Listed(server, n) && |items| < CountOf(reply) && ItemsOf(reply) == []
    case SomeUnparseable => Whole(server, n) && !AllParse(items)
    case TooManyPages => n == MAX_PAGES && Listed(server, n) && Unfinished(server, n)
    case Nothing => false
    case Unhydrated => false
  }

  /** How far into the items of the pages a stopped read got. */
  ghost function Reached(server: Server, n: nat, problem: Problem): (k: nat)
    requires n >= 1 && Faulty(server, n, problem)
    ensures k <= |Served(server, n)|
  {
    if problem.NoId? || problem.Repeated? then problem.at
    else if problem.Overrun? || problem.EmptyPage? || problem.SomeUnparseable? || problem.TooManyPages?
    then |Served(server, n)|
    else |Served(server, n - 1)|
  }

  /** The last total known when page `n` was given up. */
  ghost function LastTotal(server: Server, n: nat, problem: Problem): nat
    requires n >= 1
  {
    if problem.RequestFailed? || problem.NotAnEnvelope? || problem.NoTotal?
    then if n == 1 then 0 else CountOf(ReplyTo(server, n - 1))
    else CountOf(ReplyTo(server, n))
  }

  /** Page `n` is the first with a fault, and `problem` is its first. */
  ghost predicate FirstFault(server: Server, n: nat, problem: Problem) {
    && 1 <= n <= MAX_PAGES
    && Listed(server, n - 1) && Unfinished(server, n - 1)
    && Faulty(server, n, problem)
  }

  /** The read stopped at the first fault, keeping what it had parsed. */
  ghost predicate Stopped(server: Server, read: MailboxRead) {
    && FirstFault(server, read.pages, read.problem)
    && !read.complete
    && Keeps(read, Served(server, read.pages)[..Reached(server, read.pages, read.problem)])
    && read.reportedTotal == LastTotal(server, read.pages, read.problem)
  }

  /** The read found the whole mailbox and lost nothing of it. */
  ghost predicate Succeeded(server: Server, read: MailboxRead) {
    && 1 <= read.pages <= MAX_PAGES
    && Whole(server, read.pages) && AllParse(Served(server, read.pages))
    && read.complete && read.problem == Nothing
    && Keeps(read, Served(server, read.pages))
    && read.reportedTotal == CountOf(ReplyTo(server, read.pages))
  }

  /** Each of `items` is either among the messages, in order, or counted as unparseable. */
  ghost predicate Keeps(read: MailboxRead, items: seq<Item>) {
    && read.messages == Parsed(items)
    && |read.messages| + read.unparseable == |items|
  }

  // ------------------------------------------------------------------
  // Items of one page
  // ------------------------------------------------------------------

  ghost predicate SeenIn(seen: set<string>, items: seq<Item>) {
    && |seen| == |items|
    && (forall i :: 0 <= i < |items| ==> IdOf(items[i]) in seen)
    && (forall id :: id in seen ==> exists i :: 0 <= i < |items| && IdOf(items[i]) == id)
  }

  lemma ParsedSnoc(items: seq<Item>, item: Item)
    ensures Parsed(items + [item])
         == match Parse(item) case Some(message) => Parsed(items) + [message] case None => Parsed(items)
  {
    assert (items + [item])[..|items + [item]| - 1] == items;
  }

  lemma {:induction false} SeenSnoc(seen: set<string>, items: seq<Item>, item: Item)
    requires DistinctIds(items) && SeenIn(seen, items) && IdOf(item) != ""
    ensures DistinctIds(items + [item]) <==> IdOf(item) !in seen
    ensures IdOf(item) !in seen ==> SeenIn(seen + {IdOf(item)}, items + [item])
  {
    var longer := items + [item];
    assert forall i :: 0 <= i < |items| ==> longer[i] == items[i];
    assert longer[|items|] == item;
    if IdOf(item) in seen {
      var i :| 0 <= i < |items| && IdOf(items[i]) == IdOf(item);
      assert IdOf(longer[i]) == IdOf(longer[|items|]);
    } else {
      forall id | id in seen + {IdOf(item)} ensures exists i :: 0 <= i < |longer| && IdOf(longer[i]) == id {
        if id in seen {
          var i :| 0 <= i < |items| && IdOf(items[i]) == id;
          assert IdOf(longer[i]) == id;
        }
      }
    }
  }

  lemma NoIdNotDistinct(items: seq<Item>, item: Item)
    requires IdOf(item) == ""
    ensures !DistinctIds(items + [item])
  {
    assert IdOf((items + [item])[|items|]) == "";
  }

  /** What the loop over a page updates. */
  datatype Progress = Progress(seen: set<string>, collected: seq<Message>, unparseable: nat)

  ghost predicate Took(p: Progress, items: seq<Item>) {
    && DistinctIds(items) && SeenIn(p.seen, items)
    && p.collected == Parsed(items) && |p.collected| + p.unparseable == |items|
  }

  /** One more item, its ID not yet seen. */
  function Take(p: Progress, item: Item): Progress {
    match Parse(item)
    case Some(message) => Progress(p.seen + {IdOf(item)}, p.collected + [message], p.unparseable)
    case None => Progress(p.seen + {IdOf(item)}, p.collected, p.unparseable + 1)
  }

  lemma {:induction false} TookSnoc(p: Progress, items: seq<Item>, item: Item)
    requires Took(p, items) && IdOf(item) != "" && IdOf(item) !in p.seen
    ensures Took(Take(p, item), items + [item])
  {
    SeenSnoc(p.seen, items, item);
    ParsedSnoc(items, item);
  }

  /** Where a page left off, and why. */
  ghost predicate PageDone(all: seq<Item>, p: Progress, problem: Problem) {
    if problem == Nothing then Took(p, all)
    else
      && (problem.NoId? || problem.Repeated?)
      && FirstBadId(all, problem.at)
      && (problem.NoId? <==> IdOf(all[problem.at]) == "")
      && p.collected == Parsed(all[..problem.at])
      && |p.collected| + p.unparseable == problem.at
  }

  lemma BadIdHere(p: Progress, items: seq<Item>, item: Item, rest: seq<Item>)
    requires Took(p, items) && (IdOf(item) == "" || IdOf(item) in p.seen)
    ensures FirstBadId(items + [item] + rest, |items|)
    ensures (items + [item] + rest)[|items|] == item && (items + [item] + rest)[..|items|] == items
  {
    var all := items + [item] + rest;
    assert all[..|items|] == items && all[..|items| + 1] == items + [item];
    if IdOf(item) == "" {
      NoIdNotDistinct(items, item);
    } else {
      SeenSnoc(p.seen, items, item);
    }
  }

  lemma {:induction false} StopsHere(p: Progress, items: seq<Item>, item: Item, rest: seq<Item>)
    requires Took(p, items) && (IdOf(item) == "" || IdOf(item) in p.seen)
    ensures IdOf(item) == "" ==> PageDone(items + [item] + rest, p, NoId(|p.collected| + p.unparseable))
    ensures IdOf(item) != "" ==> PageDone(items + [item] + rest, p, Repeated(|p.collected| + p.unparseable))
  {
    BadIdHere(p, items, item, rest);
  }

  lemma Advance<T>(before: seq<T>, page: seq<T>, i: nat)
    requires i < |page|
    ensures before + page[..i + 1] == before + page[..i] + [page[i]]
    ensures before + page == before + page[..i] + [page[i]] + page[i + 1..]
  {
    assert page[..i + 1] == page[..i] + [page[i]];
    assert page == page[..i] + [page[i]] + page[i + 1..];
  }

  lemma Bounds<T>(before: seq<T>, page: seq<T>)
    ensures before + page[..0] == before && before + page[..|page|] == before + page
  {
  }

  method TakePage(ghost before: seq<Item>, page: seq<Item>, start: Progress) returns (p: Progress, problem: Problem)
    requires Took(start, before)
    ensures PageDone(before + page, p, problem)
  {
    p := start;
    Bounds(before, page);
    for i := 0 to |page|
      invariant Took(p, before + page[..i])
    {
      var item := page[i];
      Advance(before, page, i);
      if IdOf(item) == "" {
        StopsHere(p, before + page[..i], item, page[i + 1..]);
        return p, NoId(|p.collected| + p.unparseable);
      }
      if IdOf(item) in p.seen {
        StopsHere(p, before + page[..i], item, page[i + 1..]);
        return p, Repeated(|p.collected| + p.unparseable);
      }
      TookSnoc(p, before + page[..i], item);
      p := Take(p, item);
    }
    problem := Nothing;
  }

  // ------------------------------------------------------------------
  // All pages
  // ------------------------------------------------------------------

  /** What is known before the n-th request. */
  ghost predicate Pending(server: Server, n: nat, p: Progress) {
    && 1 <= n <= MAX_PAGES
    && Listed(server, n - 1) && Unfinished(server, n - 1)
    && Took(p, Served(server, n - 1))
  }

  /** What is known once the n-th page is read and its items are taken. */
  ghost predicate PageRead(server: Server, n: nat, p: Progress) {
    && 1 <= n <= MAX_PAGES
    && Listed(server, n - 1) && Listed(server, n) && Unfinished(server, n - 1)
    && Took(p, Served(server, n))
  }

  function Given(p: Progress, total: nat, pages: nat, problem: Problem): MailboxRead {
    MailboxRead(p.collected, false, total, pages, p.unparseable, problem)
  }

  lemma ListedSnoc(server: Server, n: nat)
    requires n >= 1 && Listed(server, n - 1) && Sound(server, n) && DistinctIds(Served(server, n))
    ensures Listed(server, n)
  {
    forall j, k | 1 <= j <= k <= n
      ensures CountOf(ReplyTo(server, j)) <= CountOf(ReplyTo(server, k))
    {
      if k == n && j < n {
        assert CountOf(ReplyTo(server, j)) <= CountOf(ReplyTo(server, n - 1));
      }
    }
  }

  predicate IsHeaderProblem(problem: Problem) {
    || problem.RequestFailed? || problem.NotAnEnvelope? || problem.NoTotal? || problem.TotalDropped?
    || problem.MessagesNotAList?
  }

  lemma ReachedBefore(server: Server, n: nat, problem: Problem)
    requires n >= 1 && Faulty(server, n, problem) && IsHeaderProblem(problem)
    ensures Served(server, n)[..Reached(server, n, problem)] == Served(server, n - 1)
  {
  }

  /** A fault found before any item of the page was looked at. */
  lemma StopsBefore(server: Server, n: nat, p: Progress, total: nat, problem: Problem)
    requires Pending(server, n, p) && Faulty(server, n, problem) && IsHeaderProblem(problem)
    requires total == LastTotal(server, n, problem)
    ensures Stopped(server, Given(p, total, n, problem))
  {
    ReachedBefore(server, n, problem);
  }

  lemma StopsWithin(server: Server, n: nat, before: Progress, p: Progress, problem: Problem)
    requires Pending(server, n, before) && Sound(server, n)
    requires problem != Nothing && PageDone(Served(server, n), p, problem)
    ensures Stopped(server, Given(p, CountOf(ReplyTo(server, n)), n, problem))
  {
  }

  lemma {:induction false} StopsAfter(server: Server, n: nat, p: Progress, problem: Problem)
    requires PageRead(server, n, p) && Faulty(server, n, problem)
    requires problem.Overrun? || problem.EmptyPage? || problem.SomeUnparseable? || problem.TooManyPages?
    ensures Stopped(server, Given(p, CountOf(ReplyTo(server, n)), n, problem))
  {
    var items := Served(server, n);
    assert items[..|items|] == items;
  }

  lemma {:induction false} ParsedLength(items: seq<Item>)
    ensures |Parsed(items)| <= |items|
    ensures |Parsed(items)| == |items| <==> AllParse(items)
  {
    if items != [] {
      var before := items[..|items| - 1];
      ParsedLength(before);
      assert AllParse(items) <==> AllParse(before) && Parse(items[|items| - 1]).Some? by {
        assert forall i :: 0 <= i < |before| ==> before[i] == items[i];
      }
    }
  }

  /** The read reached the total: whole if nothing was lost on the way. */
  method Finish(ghost server: Server, n: nat, p: Progress, total: nat) returns (read: MailboxRead)
    requires PageRead(server, n, p) && Whole(server, n) && total == CountOf(ReplyTo(server, n))
    ensures Succeeded(server, read) || Stopped(server, read)
  {
    ParsedLength(Served(server, n));
    if p.unparseable > 0 {
      StopsAfter(server, n, p, SomeUnparseable);
      return Given(p, total, n, SomeUnparseable);
    }
    return MailboxRead(p.collected, true, total, n, p.unparseable, Nothing);
  }

  lemma ListedBefore(server: Server, n: nat)
    requires n >= 1 && Listed(server, n)
    ensures Listed(server, n - 1)
  {
    var items, more := Served(server, n - 1), ItemsOf(ReplyTo(server, n));
    assert forall i :: 0 <= i < |items| ==> (items + more)[i] == items[i];
  }

  lemma {:induction false} StopsAtLimit(server: Server, n: nat, p: Progress)
    requires n == MAX_PAGES
    requires Listed(server, n) && Unfinished(server, n) && Took(p, Served(server, n))
    ensures Stopped(server, Given(p, CountOf(ReplyTo(server, n)), n, TooManyPages))
  {
    ListedBefore(server, n);
    StopsAfter(server, n, p, TooManyPages);
  }

  /** The checks made before the items of a page are looked at. */
  function HeaderProblem(reply: Reply, previous: Option<nat>): Problem {
    if reply.Failed? then RequestFailed
    else if reply.NotADict? then NotAnEnvelope
    else if ReportedTotal(reply).None? then NoTotal
    else if previous.Some? && CountOf(reply) < previous.value then TotalDropped
    else if reply.messages.None? then MessagesNotAList
    else Nothing
  }

  ghost function PreviousTotal(server: Server, n: nat): Option<nat> {
    if n == 0 then None else Some(CountOf(ReplyTo(server, n)))
  }

  /** What the checks find is the first fault there is, and when they find none the page is sound. */
  lemma {:induction false} HeaderFinds(server: Server, n: nat)
    requires n >= 1
    ensures var problem := HeaderProblem(ReplyTo(server, n), PreviousTotal(server, n - 1));
            if problem == Nothing then Sound(server, n) else IsHeaderProblem(problem) && Faulty(server, n, problem)
  {
  }

  lemma {:induction false} HeaderStops(server: Server, n: nat, p: Progress)
    requires Pending(server, n, p)
    ensures var problem := HeaderProblem(ReplyTo(server, n), PreviousTotal(server, n - 1));
            if problem == Nothing then Sound(server, n)
            else Stopped(server, Given(p, LastTotal(server, n, problem), n, problem))
  {
    var problem := HeaderProblem(ReplyTo(server, n), PreviousTotal(server, n - 1));
    HeaderFinds(server, n);
    if problem != Nothing {
      StopsBefore(server, n, p, LastTotal(server, n, problem), problem);
    }
  }

  /** What the items of a sound page lead to. */
  lemma {:induction false} ItemsLead(server: Server, n: nat, before: Progress, p: Progress, problem: Problem)
    requires Pending(server, n, before) && Sound(server, n) && PageDone(Served(server, n), p, problem)
    ensures if problem == Nothing then PageRead(server, n, p)
            else Stopped(server, Given(p, CountOf(ReplyTo(server, n)), n, problem))
  {
    if problem == Nothing {
      ListedSnoc(server, n);
    } else {
      StopsWithin(server, n, before, p, problem);
    }
  }

  /** The tests made once a page's items are taken; `None` means another page is asked for. */
  method Judge(ghost server: Server, n: nat, p: Progress, total: nat, empty: bool) returns (read: Option<MailboxRead>)
    requires PageRead(server, n, p) && total == CountOf(ReplyTo(server, n))
    requires empty == (ItemsOf(ReplyTo(server, n)) == [])
    ensures match read
            case None => Listed(server, n) && Unfinished(server, n) && Took(p, Served(server, n))
            case Some(r) => Succeeded(server, r) || Stopped(server, r)
  {
    if |p.seen| > total {
      StopsAfter(server, n, p, Overrun);
      return Some(Given(p, total, n, Overrun));
    }
    if |p.seen| == total {
      var whole := Finish(server, n, p, total);
      return Some(whole);
    }
    if empty {
      StopsAfter(server, n, p, EmptyPage);
      return Some(Given(p, total, n, EmptyPage));
    }
    return None;
  }

  /** Takes the items of a sound page and judges what it leaves. */
  method ReadItems(ghost server: Server, n: nat, items: seq<Item>, total: nat, before: Progress)
    returns (p: Progress, read: Option<MailboxRead>)
    requires Pending(server, n, before) && Sound(server, n)
    requires items == ItemsOf(ReplyTo(server, n)) && total == CountOf(ReplyTo(server, n))
    ensures match read
            case None => Listed(server, n) && Unfinished(server, n) && Took(p, Served(server, n))
            case Some(r) => Succeeded(server, r) || Stopped(server, r)
  {
    var problem;
    p, problem := TakePage(Served(server, n - 1), items, before);
    ItemsLead(server, n, before, p, problem);
    if problem != Nothing {
      return p, Some(Given(p, total, n, problem));
    }
    read := Judge(server, n, p, total, items == []);
  }

  /** The checks of a reply that come before its items; `None` means the page is sound. */
  method CheckHeader(ghost server: Server, n: nat, reply: Reply, previous: Option<nat>, total: nat, p: Progress)
    returns (read: Option<MailboxRead>)
    requires Pending(server, n, p) && reply == ReplyTo(server, n) && previous == PreviousTotal(server, n - 1)
    requires total == if previous.None? then 0 else previous.value
    ensures match read
            case None => Sound(server, n)
            case Some(r) => Stopped(server, r)
  {
    HeaderStops(server, n, p);
    var problem := HeaderProblem(reply, previous);
    if problem == Nothing {
      return None;
    }
    if problem.RequestFailed? || problem.NotAnEnvelope? || problem.NoTotal? {
      return Some(Given(p, total, n, problem));
    }
    return Some(Given(p, CountOf(reply), n, problem));
  }

  /** Pages through the whole mailbox, or reports why the read is not whole. */
  method ReadAll(server: Server) returns (read: MailboxRead)
    ensures Succeeded(server, read) || Stopped(server, read)
  {
    var p := Progress({}, [], 0);
    var start, total := 0, 0;
    var previousTotal: Option<nat> := None;
    for page := 1 to MAX_PAGES + 1
      invariant Listed(server, page - 1) && Unfinished(server, page - 1)
      invariant Took(p, Served(server, page - 1))
      invariant start == |Served(server, page - 1)|
      invariant previousTotal == PreviousTotal(server, page - 1)
      invariant total == if previousTotal.None? then 0 else previousTotal.value
    {
      var reply := server(page, start);
      var outcome := CheckHeader(server, page, reply, previousTotal, total, p);
      if outcome.Some? {
        return outcome.value;
      }
      total := CountOf(reply);
      previousTotal := Some(total);
      p, outcome := ReadItems(server, page, ItemsOf(reply), total, p);
      if outcome.Some? {
        return outcome.value;
      }
      start := start + |ItemsOf(reply)|;
    }
    StopsAtLimit(server, MAX_PAGES, p);
    return Given(p, total, MAX_PAGES, TooManyPages);
  }

  /** What `ReadAll` promises of its result. */
  ghost predicate Outcome(server: Server, read: MailboxRead) {
    Succeeded(server, read) || Stopped(server, read)
  }

  // ------------------------------------------------------------------
  // When a read is complete
  // ------------------------------------------------------------------

  lemma WholeUnique(server: Server, m: nat, n: nat)
    requires Whole(server, m) && Whole(server, n)
    ensures m == n
  {
  }

  lemma DistinctUpTo(items: seq<Item>, k: nat)
    requires k <= |items| && DistinctIds(items)
    ensures DistinctIds(items[..k])
  {
  }

  /** A page with a fault is no part of a whole mailbox. */
  lemma FaultyPageSpoils(server: Server, n: nat, problem: Problem)
    requires n >= 1 && Faulty(server, n, problem) && Listed(server, n)
    ensures problem.Overrun? || problem.EmptyPage? || problem.SomeUnparseable? || problem.TooManyPages?
  {
    assert Usable(ReplyTo(server, n));
    if n > 1 {
      assert CountOf(ReplyTo(server, n - 1)) <= CountOf(ReplyTo(server, n));
    }
    if problem.NoId? || problem.Repeated? {
      DistinctUpTo(Served(server, n), problem.at + 1);
    }
  }

  lemma ListedUpTo(server: Server, m: nat, n: nat)
    requires m <= n && Listed(server, n)
    ensures Listed(server, m)
    decreases n
  {
    if m < n {
      ListedBefore(server, n);
      ListedUpTo(server, m, n - 1);
    }
  }

  lemma {:induction false} NothingWholeWhenStopped(server: Server, read: MailboxRead, n: nat)
    requires Stopped(server, read) && n <= MAX_PAGES && Whole(server, n)
    ensures n == read.pages && read.problem == SomeUnparseable && !AllParse(Served(server, n))
  {
    var page := read.pages;
    if page <= n {
      ListedUpTo(server, page, n);
      FaultyPageSpoils(server, page, read.problem);
    }
  }

  /** A read is complete exactly when some first pages are a whole mailbox that can be parsed. */
  lemma {:induction false} CompleteIff(server: Server, read: MailboxRead)
    requires Outcome(server, read)
    ensures read.complete <==> exists n :: 1 <= n <= MAX_PAGES && Whole(server, n) && AllParse(Served(server, n))
  {
    if read.complete {
      assert Whole(server, read.pages);
    } else if n :| 1 <= n <= MAX_PAGES && Whole(server, n) && AllParse(Served(server, n)) {
      NothingWholeWhenStopped(server, read, n);
    }
  }

  /** The one fault of a page that is fine and leaves the mailbox unfinished. */
  lemma {:induction false} OnlyTheLimitIsLeft(server: Server, n: nat, problem: Problem)
    requires n >= 1 && Faulty(server, n, problem) && Listed(server, n) && Unfinished(server, n)
    ensures problem == TooManyPages && n == MAX_PAGES
  {
    FaultyPageSpoils(server, n, problem);
    assert |Served(server, n)| < CountOf(ReplyTo(server, n)) && ItemsOf(ReplyTo(server, n)) != [];
  }

  lemma FirstBadIdUnique(items: seq<Item>, i: nat, j: nat)
    requires FirstBadId(items, i) && FirstBadId(items, j)
    ensures i == j
  {
  }

  lemma BadIdBeforeListed(server: Server, n: nat, at: nat)
    requires n >= 1 && FirstBadId(Served(server, n), at)
    ensures !Listed(server, n)
  {
    if DistinctIds(Served(server, n)) {
      DistinctUpTo(Served(server, n), at + 1);
    }
  }

  lemma {:induction false} FaultUnique(server: Server, n: nat, p: Problem, q: Problem)
    requires n >= 1 && Faulty(server, n, p) && Faulty(server, n, q)
    ensures p == q
  {
    if p.NoId? || p.Repeated? {
      BadIdBeforeListed(server, n, p.at);
    }
    if q.NoId? || q.Repeated? {
      BadIdBeforeListed(server, n, q.at);
    }
    if (p.NoId? || p.Repeated?) && (q.NoId? || q.Repeated?) {
      FirstBadIdUnique(Served(server, n), p.at, q.at);
    }
    if Listed(server, n) && (p.TooManyPages? || q.TooManyPages?) {
      OnlyTheLimitIsLeft(server, n, p);
      OnlyTheLimitIsLeft(server, n, q);
    }
  }

  /** No read goes on past a page with a fault. */
  lemma NoPageAfterFault(server: Server, m: nat, n: nat, problem: Problem)
    requires 1 <= m < n <= MAX_PAGES && Faulty(server, m, problem)
    ensures !(Listed(server, n - 1) && Unfinished(server, n - 1))
  {
    if Listed(server, n - 1) && Unfinished(server, n - 1) {
      ListedUpTo(server, m, n - 1);
      OnlyTheLimitIsLeft(server, m, problem);
    }
  }

  lemma {:induction false} FirstFaultUnique(server: Server, m: nat, p: Problem, n: nat, q: Problem)
    requires FirstFault(server, m, p) && FirstFault(server, n, q)
    ensures m == n && p == q
  {
    if m < n {
      NoPageAfterFault(server, m, n, p);
    } else if n < m {
      NoPageAfterFault(server, n, m, q);
    } else {
      FaultUnique(server, m, p, q);
    }
  }

  lemma SameFaultSameRead(server: Server, a: MailboxRead, b: MailboxRead)
    requires Stopped(server, a) && Stopped(server, b)
    requires a.pages == b.pages && a.problem == b.problem
    ensures a == b
  {
  }

  /** The server's answers leave only one result: page, reason, messages and counts. */
  lemma {:induction false} OutcomeUnique(server: Server, a: MailboxRead, b: MailboxRead)
    requires Outcome(server, a) && Outcome(server, b)
    ensures a == b
  {
    if Succeeded(server, a) && Succeeded(server, b) {
      WholeUnique(server, a.pages, b.pages);
    } else if Succeeded(server, a) {
      NothingWholeWhenStopped(server, b, a.pages);
    } else if Succeeded(server, b) {
      NothingWholeWhenStopped(server, a, b.pages);
    } else {
      FirstFaultUnique(server, a.pages, a.problem, b.pages, b.problem);
      SameFaultSameRead(server, a, b);
    }
  }

  lemma {:induction false} ParsedAt(items: seq<Item>, i: nat)
    requires AllParse(items) && i < |items|
    ensures |Parsed(items)| == |items| && Parsed(items)[i] == Parse(items[i]).value
  {
    ParsedLength(items);
    var before := items[..|items| - 1];
    assert forall k :: 0 <= k < |before| ==> before[k] == items[k];
    ParsedLength(before);
    if i < |items| - 1 {
      ParsedAt(before, i);
    }
  }

  /** What a complete read may be relied on for, whatever the server did. */
  lemma {:induction false} CompleteMeans(server: Server, read: MailboxRead)
    requires Outcome(server, read) && read.complete
    ensures |read.messages| == read.reportedTotal == |Served(server, read.pages)| && read.unparseable == 0
    ensures forall i :: 0 <= i < |read.messages| ==> Parse(Served(server, read.pages)[i]) == Some(read.messages[i])
    ensures forall i, j :: 0 <= i < j < |read.messages| ==> read.messages[i].id != read.messages[j].id
    ensures DistinctIds(Served(server, read.pages))
    ensures forall j, k :: 1 <= j <= k <= read.pages ==> CountOf(ReplyTo(server, j)) <= CountOf(ReplyTo(server, k))
  {
    var items := Served(server, read.pages);
    ParsedLength(items);
    forall i | 0 <= i < |items|
      ensures read.messages[i] == Parse(items[i]).value && read.messages[i].id == IdOf(items[i])
    {
      ParsedAt(items, i);
    }
  }

  // ------------------------------------------------------------------
  // An honest server
  // ------------------------------------------------------------------

  function Min(a: nat, b: nat): nat { if a < b then a else b }

  function Slice<T>(box: seq<T>, start: nat, size: nat): seq<T> {
    box[Min(start, |box|)..Min(start + size, |box|)]
  }

  /** Serves the fixed mailbox `box` in pages of `size` items, always with its true count. */
  ghost predicate Honest(server: Server, box: seq<Item>, size: nat) {
    forall page: nat, start: nat :: server(page, start).Page?
      && ReportedTotal(server(page, start)) == Some(|box|)
      && server(page, start).messages == Some(Slice(box, start, size))
  }

  /** The first position after `n` pages. */
  function After(n: nat, size: nat): nat {
    if n == 0 then 0 else After(n - 1, size) + size
  }

  lemma {:induction false} AfterIsProduct(n: nat, size: nat)
    ensures After(n, size) == n * size
  {
    if n > 0 {
      AfterIsProduct(n - 1, size);
    }
  }

  lemma {:induction false} AfterGrows(m: nat, n: nat, size: nat)
    requires m <= n
    ensures After(m, size) <= After(n, size)
  {
    if m < n {
      AfterGrows(m, n - 1, size);
    }
  }

  lemma SliceExtends<T>(box: seq<T>, start: nat, size: nat)
    ensures box[..Min(start, |box|)] + Slice(box, Min(start, |box|), size) == box[..Min(start + size, |box|)]
  {
  }

  lemma {:induction false} HonestServes(server: Server, box: seq<Item>, size: nat, n: nat)
    requires Honest(server, box, size)
    ensures Served(server, n) == box[..Min(After(n, size), |box|)]
  {
    if n > 0 {
      HonestServes(server, box, size, n - 1);
      SliceExtends(box, After(n - 1, size), size);
    }
  }

  lemma HonestListed(server: Server, box: seq<Item>, size: nat, n: nat)
    requires Honest(server, box, size) && DistinctIds(box)
    ensures Listed(server, n)
  {
    HonestServes(server, box, size, n);
    DistinctUpTo(box, Min(After(n, size), |box|));
  }

  lemma HonestUnfinished(server: Server, box: seq<Item>, size: nat, n: nat)
    requires Honest(server, box, size) && size >= 1 && After(n, size) < |box|
    ensures Unfinished(server, n)
  {
    forall k | 1 <= k <= n
      ensures ItemsOf(ReplyTo(server, k)) != [] && |Served(server, k)| < CountOf(ReplyTo(server, k))
    {
      HonestServes(server, box, size, k);
      HonestServes(server, box, size, k - 1);
      AfterGrows(k, n, size);
    }
  }

  /** How many requests a mailbox of `n` messages takes. */
  function PagesNeeded(n: nat, size: nat): (k: nat)
    requires size >= 1
  {
    if n == 0 then 1 else (n + size - 1) / size
  }

  lemma PagesNeededEnough(n: nat, size: nat)
    requires size >= 1
    ensures var k := PagesNeeded(n, size); k >= 1 && n <= After(k, size) && (k > 1 ==> After(k - 1, size) < n)
  {
    var k := PagesNeeded(n, size);
    if n > 0 {
      assert k * size <= n + size - 1 < k * size + size;
      assert k >= 1;
      AfterIsProduct(k, size);
    }
  }

  lemma {:induction false} FitsWhen(n: nat, size: nat, limit: nat)
    requires size >= 1 && limit >= 1
    ensures PagesNeeded(n, size) <= limit <==> n <= limit * size
  {
    var k := PagesNeeded(n, size);
    PagesNeededEnough(n, size);
    AfterIsProduct(limit, size);
    if k <= limit {
      AfterGrows(k, limit, size);
    } else {
      AfterGrows(limit, k - 1, size);
    }
  }

  lemma {:induction false} HonestWhole(server: Server, box: seq<Item>, size: nat)
    requires Honest(server, box, size) && DistinctIds(box) && size >= 1
    ensures Whole(server, PagesNeeded(|box|, size)) && Served(server, PagesNeeded(|box|, size)) == box
  {
    var n := PagesNeeded(|box|, size);
    PagesNeededEnough(|box|, size);
    HonestListed(server, box, size, n);
    HonestServes(server, box, size, n);
    assert box[..|box|] == box;
    HonestBeforeLast(server, box, size, n - 1);
  }

  lemma {:induction false} HonestBeforeLast(server: Server, box: seq<Item>, size: nat, n: nat)
    requires Honest(server, box, size) && DistinctIds(box) && size >= 1 && n < PagesNeeded(|box|, size)
    ensures Listed(server, n) && Unfinished(server, n)
  {
    var last := PagesNeeded(|box|, size) - 1;
    HonestListed(server, box, size, n);
    if n > 0 {
      PagesNeededEnough(|box|, size);
      AfterGrows(n, last, size);
      HonestUnfinished(server, box, size, n);
    }
  }

  lemma {:induction false} HonestNeverStopsEarly(server: Server, box: seq<Item>, size: nat, read: MailboxRead)
    requires Honest(server, box, size) && DistinctIds(box) && size >= 1
    requires Stopped(server, read) && read.pages < PagesNeeded(|box|, size)
    ensures read.pages == MAX_PAGES && read.problem == TooManyPages
  {
    HonestBeforeLast(server, box, size, read.pages);
    OnlyTheLimitIsLeft(server, read.pages, read.problem);
  }

  lemma HonestSuccess(server: Server, box: seq<Item>, size: nat, read: MailboxRead)
    requires Honest(server, box, size) && DistinctIds(box) && size >= 1 && Succeeded(server, read)
    ensures read.pages == PagesNeeded(|box|, size) && AllParse(box)
    ensures read.complete && read.messages == Parsed(box) && read.unparseable == |box| - |Parsed(box)|
  {
    HonestWhole(server, box, size);
    WholeUnique(server, PagesNeeded(|box|, size), read.pages);
  }

  /** The honest server's pages are all read, and only messages that cannot be parsed are missing. */
  lemma {:induction false} HonestLoss(server: Server, box: seq<Item>, size: nat, read: MailboxRead)
    requires Honest(server, box, size) && DistinctIds(box) && size >= 1
    requires Stopped(server, read) && PagesNeeded(|box|, size) <= MAX_PAGES
    ensures read.pages == PagesNeeded(|box|, size) && !AllParse(box)
    ensures !read.complete && read.messages == Parsed(box) && read.unparseable == |box| - |Parsed(box)|
  {
    var n := PagesNeeded(|box|, size);
    HonestWhole(server, box, size);
    NothingWholeWhenStopped(server, read, n);
    assert box[..|box|] == box;
  }

  /**
    An honest server's mailbox of distinct messages is read exactly and with no request to spare when
    it fits in 400 pages, and the read is complete exactly when every message can be parsed. A larger
    mailbox is never called complete.
   */
  lemma {:induction false} HonestReadIsExact(server: Server, box: seq<Item>, size: nat, read: MailboxRead)
    requires Honest(server, box, size) && DistinctIds(box) && size >= 1
    requires Outcome(server, read)
    ensures |box| <= MAX_PAGES * size ==>
      && (read.complete <==> AllParse(box))
      && read.messages == Parsed(box) && read.unparseable == |box| - |Parsed(box)|
      && read.pages == PagesNeeded(|box|, size)
    ensures |box| > MAX_PAGES * size ==> !read.complete && read.pages == MAX_PAGES && read.problem == TooManyPages
  {
    FitsWhen(|box|, size, MAX_PAGES);
    if Succeeded(server, read) {
      HonestSuccess(server, box, size, read);
    } else if PagesNeeded(|box|, size) <= MAX_PAGES {
      HonestLoss(server, box, size, read);
    } else {
      HonestNeverStopsEarly(server, box, size, read);
    }
  }

  // ------------------------------------------------------------------
  // Calendar identities
  // ------------------------------------------------------------------

  /** The source of a message by its ID; `None` when it cannot be fetched. */
  type Sources = string -> Option<ICalendar.Source>

  predicate Fetchable(message: Message, sources: Sources) {
    message.id != "" && sources(message.id).Some?
  }

  function Hydrated(message: Message, sources: Sources): Message
    requires Fetchable(message, sources)
  {
    message.(invite := ICalendar.ReadingOf(sources(message.id).value))
  }

  /** `hydrated` is `messages` with identities attached, up to the first that cannot be fetched. */
  ghost predicate HydratedPrefix(hydrated: seq<Message>, messages: seq<Message>, sources: Sources) {
    && |hydrated| <= |messages|
    && (forall i :: 0 <= i < |hydrated| ==>
          Fetchable(messages[i], sources) && hydrated[i] == Hydrated(messages[i], sources))
    && (|hydrated| < |messages| ==> !Fetchable(messages[|hydrated|], sources))
  }

  method HydrateInvites(messages: seq<Message>, sources: Sources) returns (hydrated: seq<Message>, failed: bool)
    ensures HydratedPrefix(hydrated, messages, sources)
    ensures failed <==> |hydrated| < |messages|
  {
    hydrated := [];
    for i := 0 to |messages|
      invariant |hydrated| == i
      invariant forall k :: 0 <= k < i ==>
        Fetchable(messages[k], sources) && hydrated[k] == Hydrated(messages[k], sources)
    {
      var message := messages[i];
      if message.id == "" {
        return hydrated, true;
      }
      var source := sources(message.id);
      if source.None? {
        return hydrated, true;
      }
      var reading := ICalendar.ParseInvite(source.value);
      hydrated := hydrated + [message.(invite := reading)];
    }
    failed := false;
  }

  /** `read` is `base` with every message's identity, or incomplete if `base` was or a source is missing. */
  ghost predicate Identified(base: MailboxRead, read: MailboxRead, sources: Sources) {
    if !base.complete then read == base
    else
      && HydratedPrefix(read.messages, base.messages, sources)
      && read.complete == (|read.messages| == |base.messages|)
      && read.problem == (if read.complete then Nothing else Unhydrated)
      && (read.reportedTotal, read.pages, read.unparseable) == (base.reportedTotal, base.pages, base.unparseable)
  }

  method ReadAndHydrate(server: Server, sources: Sources) returns (read: MailboxRead, ghost base: MailboxRead)
    ensures Outcome(server, base) && Identified(base, read, sources)
  {
    var whole := ReadAll(server);
    base := whole;
    if !whole.complete {
      return whole, whole;
    }
    var hydrated, failed := HydrateInvites(whole.messages, sources);
    read := MailboxRead(
      hydrated, !failed, whole.reportedTotal, whole.pages, whole.unparseable, if failed then Unhydrated else Nothing);
  }

  /** A complete identified read: every message of the mailbox, each with the identity its source states. */
  lemma {:induction false} IdentifiedMeans(server: Server, base: MailboxRead, read: MailboxRead, sources: Sources)
    requires Outcome(server, base) && Identified(base, read, sources)
    ensures read.complete <==>
      base.complete && forall i :: 0 <= i < |base.messages| ==> Fetchable(base.messages[i], sources)
    ensures read.complete ==>
      && |read.messages| == read.reportedTotal
      && (forall i :: 0 <= i < |read.messages| ==>
            read.messages[i].invite == ICalendar.ReadingOf(sources(read.messages[i].id).value))
      && (forall i, j :: 0 <= i < j < |read.messages| ==> read.messages[i].id != read.messages[j].id)
  {
    if base.complete {
      CompleteMeans(server, base);
      if read.complete {
        assert forall i :: 0 <= i < |read.messages| ==> read.messages[i].id == base.messages[i].id;
      }
    }
  }
}
