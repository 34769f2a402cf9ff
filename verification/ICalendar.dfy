/**
  The calendar identity of an e-mail: unfolding content lines (section 3.1 of RFC 5545), keeping the
  first occurrence of each property, and deciding what the announcement means.

  A calendar part is the sequence of its physical lines; text is ASCII.
 */
module ICalendar {
  import opened Wrappers
  import opened Text

  // ------------------------------------------------------------------
  // Unfolding
  // ------------------------------------------------------------------

  predicate IsBlank(c: char) { c == ' ' || c == '\t' }

  predicate Continues(line: string) { line != "" && IsBlank(line[0]) }

  /** One more physical line: it extends the last content line, or starts one. */
  function AddLine(contents: seq<string>, line: string): seq<string> {
    if Continues(line) && contents != []
    then contents[..|contents| - 1] + [contents[|contents| - 1] + line[1..]]
    else contents + [line]
  }

  function Unfolded(lines: seq<string>): seq<string> {
    if lines == [] then [] else AddLine(Unfolded(lines[..|lines| - 1]), lines[|lines| - 1])
  }

  lemma UnfoldedSnoc(lines: seq<string>, line: string)
    ensures Unfolded(lines + [line]) == AddLine(Unfolded(lines), line)
  {
    assert (lines + [line])[..|lines + [line]| - 1] == lines;
  }

  // ------------------------------------------------------------------
  // Folding
  // ------------------------------------------------------------------

  type Blank = c: char | IsBlank(c) witness ' '

  /** What follows a line break: one blank, then more of the content. */
  datatype Piece = Piece(blank: Blank, text: string)

  /** A content line cut into a first piece and continuations. */
  datatype Folding = Folding(first: string, rest: seq<Piece>)

  function Content(f: Folding): string
    decreases |f.rest|
  {
    if f.rest == [] then f.first
    else Content(Folding(f.first, f.rest[..|f.rest| - 1])) + f.rest[|f.rest| - 1].text
  }

  function Physical(f: Folding): seq<string>
    decreases |f.rest|
  {
    if f.rest == [] then [f.first]
    else
      var last := f.rest[|f.rest| - 1];
      Physical(Folding(f.first, f.rest[..|f.rest| - 1])) + [[last.blank] + last.text]
  }

  /** The content lines that were cut up. */
  function Contents(fs: seq<Folding>): seq<string> {
    if fs == [] then [] else Contents(fs[..|fs| - 1]) + [Content(fs[|fs| - 1])]
  }

  /** The physical lines they became. */
  function Lines(fs: seq<Folding>): seq<string> {
    if fs == [] then [] else Lines(fs[..|fs| - 1]) + Physical(fs[|fs| - 1])
  }

  /** No content line after the first begins with a blank, where it would be read as a continuation. */
  ghost predicate Distinguishable(fs: seq<Folding>) {
    forall i :: 1 <= i < |fs| ==> !Continues(fs[i].first)
  }

  // ------------------------------------------------------------------
  // Unfolding inverts folding
  // ------------------------------------------------------------------

  lemma {:induction false} UnfoldOne(lines: seq<string>, f: Folding)
    requires lines == [] || !Continues(f.first)
    ensures Unfolded(lines + Physical(f)) == Unfolded(lines) + [Content(f)]
    decreases |f.rest|
  {
    if f.rest == [] {
      UnfoldedSnoc(lines, f.first);
    } else {
      var before, last := Folding(f.first, f.rest[..|f.rest| - 1]), f.rest[|f.rest| - 1];
      var line := [last.blank] + last.text;
      UnfoldOne(lines, before);
      UnfoldedSnoc(lines + Physical(before), line);
      assert lines + Physical(f) == (lines + Physical(before)) + [line];
      assert line[1..] == last.text;
    }
  }

  lemma {:induction false} UnfoldShorter(lines: seq<string>, f: Folding)
    ensures |Unfolded(lines)| <= |Unfolded(lines + Physical(f))| <= |Unfolded(lines)| + 1
    ensures lines != [] && Continues(f.first) ==> |Unfolded(lines + Physical(f))| == |Unfolded(lines)|
    ensures lines == [] ==> |Unfolded(lines + Physical(f))| == 1
    decreases |f.rest|
  {
    UnfoldedNonEmpty(lines);
    if f.rest == [] {
      UnfoldedSnoc(lines, f.first);
    } else {
      var before, last := Folding(f.first, f.rest[..|f.rest| - 1]), f.rest[|f.rest| - 1];
      var line := [last.blank] + last.text;
      UnfoldShorter(lines, before);
      UnfoldedNonEmpty(lines + Physical(before));
      UnfoldedSnoc(lines + Physical(before), line);
      assert lines + Physical(f) == (lines + Physical(before)) + [line];
    }
  }

  lemma {:induction false} UnfoldedNonEmpty(lines: seq<string>)
    ensures Unfolded(lines) == [] <==> lines == []
  {
  }

  lemma LinesNonEmpty(fs: seq<Folding>)
    ensures Lines(fs) == [] <==> fs == []
  {
    if fs != [] {
      assert Physical(fs[|fs| - 1]) != [];
    }
  }

  lemma DistinguishableSnoc(fs: seq<Folding>)
    requires fs != []
    ensures var n := |fs| - 1;
      Distinguishable(fs) <==> Distinguishable(fs[..n]) && (n == 0 || !Continues(fs[n].first))
  {
    var n := |fs| - 1;
    assert forall i :: 0 <= i < n ==> fs[..n][i] == fs[i];
  }

  lemma {:induction false} NeverMore(fs: seq<Folding>)
    ensures |Unfolded(Lines(fs))| <= |fs|
    ensures !Distinguishable(fs) ==> |Unfolded(Lines(fs))| < |fs|
  {
    if fs != [] {
      var before := fs[..|fs| - 1];
      NeverMore(before);
      LinesNonEmpty(before);
      UnfoldShorter(Lines(before), fs[|fs| - 1]);
      DistinguishableSnoc(fs);
    }
  }

  lemma {:induction false} CleanUnfolds(fs: seq<Folding>)
    requires Distinguishable(fs)
    ensures Unfolded(Lines(fs)) == Contents(fs)
  {
    if fs != [] {
      var before := fs[..|fs| - 1];
      CleanUnfolds(before);
      LinesNonEmpty(before);
      UnfoldOne(Lines(before), fs[|fs| - 1]);
    }
  }

  lemma ContentsLength(fs: seq<Folding>)
    ensures |Contents(fs)| == |fs|
  {
  }

  /** However content lines are cut, unfolding gives them back, exactly when none after the first starts blank. */
  lemma UnfoldInvertsFold(fs: seq<Folding>)
    ensures Unfolded(Lines(fs)) == Contents(fs) <==> Distinguishable(fs)
  {
    if Distinguishable(fs) {
      CleanUnfolds(fs);
    } else {
      NeverMore(fs);
      ContentsLength(fs);
    }
  }

  // ------------------------------------------------------------------
  // Properties
  // ------------------------------------------------------------------

  datatype Property = Property(name: string, value: string)

  /** `NAME[;params]:value`, the name upper-cased and both ends stripped. */
  function ReadProperty(line: string): Option<Property> {
    var colon := Find(line, ':');
    if colon == |line| then None
    else
      var head := line[..colon];
      var name := Upper(Strip(head[..Find(head, ';')]));
      if name == "" then None else Some(Property(name, Strip(line[colon + 1..])))
  }

  predicate Names(line: string, name: string) {
    ReadProperty(line).Some? && ReadProperty(line).value.name == name
  }

  /** The first content line that states property `name`, or the number of lines. */
  function FirstNaming(contents: seq<string>, name: string): (k: nat)
    ensures k <= |contents|
    ensures forall i :: 0 <= i < k ==> !Names(contents[i], name)
    ensures k < |contents| ==> Names(contents[k], name)
  {
    if contents == [] || Names(contents[0], name) then 0 else 1 + FirstNaming(contents[1..], name)
  }

  function ValueIn(contents: seq<string>, name: string): Option<string> {
    var k := FirstNaming(contents, name);
    if k == |contents| then None else Some(ReadProperty(contents[k]).value.value)
  }

  /** `properties` holds each stated property once, with the value of its first statement. */
  ghost predicate FirstOccurrences(properties: map<string, string>, contents: seq<string>) {
    forall name: string ::
      ValueIn(contents, name) == if name in properties then Some(properties[name]) else None
  }

  lemma ValueInSnoc(contents: seq<string>, line: string, name: string)
    ensures ValueIn(contents + [line], name)
         == if ValueIn(contents, name).Some? then ValueIn(contents, name)
            else if Names(line, name) then Some(ReadProperty(line).value.value) else None
  {
    var longer := contents + [line];
    var k, k' := FirstNaming(contents, name), FirstNaming(longer, name);
    assert forall i :: 0 <= i < |contents| ==> longer[i] == contents[i];
    assert longer[|contents|] == line;
    if k < |contents| {
      assert Names(longer[k], name);
      assert k' <= k;
      assert Names(contents[k'], name);
    } else {
      assert forall i :: 0 <= i < |contents| ==> !Names(longer[i], name);
      assert k' >= |contents|;
    }
  }

  /** One more content line: its property is recorded unless its name is already there. */
  function AddProperty(properties: map<string, string>, line: string): map<string, string> {
    match ReadProperty(line)
    case None => properties
    case Some(p) => if p.name in properties then properties else properties[p.name := p.value]
  }

  lemma {:induction false} FirstOccurrencesSnoc(properties: map<string, string>, contents: seq<string>, line: string)
    requires FirstOccurrences(properties, contents)
    ensures FirstOccurrences(AddProperty(properties, line), contents + [line])
  {
    var after := AddProperty(properties, line);
    forall name: string
      ensures ValueIn(contents + [line], name) == if name in after then Some(after[name]) else None
    {
      ValueInSnoc(contents, line, name);
      assert ValueIn(contents, name) == if name in properties then Some(properties[name]) else None;
    }
  }

  /** A map with the first occurrences is determined by the content lines. */
  lemma FirstOccurrencesUnique(p: map<string, string>, q: map<string, string>, contents: seq<string>)
    requires FirstOccurrences(p, contents) && FirstOccurrences(q, contents)
    ensures p == q
  {
    forall name: string
      ensures name in p <==> name in q
      ensures name in p ==> p[name] == q[name]
    {
      assert ValueIn(contents, name) == if name in p then Some(p[name]) else None;
      assert ValueIn(contents, name) == if name in q then Some(q[name]) else None;
    }
  }

  lemma TakeNext<T>(xs: seq<T>, i: nat)
    requires i < |xs|
    ensures xs[..i + 1] == xs[..i] + [xs[i]]
  {
  }

  method Unfold(lines: seq<string>) returns (unfolded: seq<string>)
    ensures unfolded == Unfolded(lines)
  {
    unfolded := [];
    for i := 0 to |lines|
      invariant unfolded == Unfolded(lines[..i])
    {
      var line := lines[i];
      UnfoldedSnoc(lines[..i], line);
      TakeNext(lines, i);
      if Continues(line) && unfolded != [] {
        unfolded := unfolded[..|unfolded| - 1] + [unfolded[|unfolded| - 1] + line[1..]];
      } else {
        unfolded := unfolded + [line];
      }
    }
    assert lines[..|lines|] == lines;
  }

  method ICalendarProperties(lines: seq<string>) returns (properties: map<string, string>)
    ensures FirstOccurrences(properties, Unfolded(lines))
  {
    var unfolded := Unfold(lines);
    properties := map[];
    for i := 0 to |unfolded|
      invariant FirstOccurrences(properties, unfolded[..i])
    {
      FirstOccurrencesSnoc(properties, unfolded[..i], unfolded[i]);
      TakeNext(unfolded, i);
      properties := AddProperty(properties, unfolded[i]);
    }
    assert unfolded[..|unfolded|] == unfolded;
  }

  // ------------------------------------------------------------------
  // The identity and what it means
  // ------------------------------------------------------------------

  datatype CalendarInvite = CalendarInvite(uid: string, verb: string, status: string, sequence: int)

  datatype Fault = Undecodable | MissingProperty | SequenceNotANumber

  datatype Reading = Identity(invite: CalendarInvite) | NoInvite | UnreadableInvite(fault: Fault)

  datatype Role = Confirmation | Superseding | Unclassified | Absent | Unreadable

  /** What the walk over a message's MIME parts found. */
  datatype Source = NoCalendarPart | GarbledPart | CalendarPart(lines: seq<string>)

  /** The identity stated by content lines; any of the four properties missing leaves none. */
  function ReadingOf(source: Source): Reading {
    match source
    case NoCalendarPart => NoInvite
    case GarbledPart => UnreadableInvite(Undecodable)
    case CalendarPart(lines) => IdentityOf(Unfolded(lines))
  }

  function IdentityOf(contents: seq<string>): Reading {
    match (ValueIn(contents, "UID"), ValueIn(contents, "METHOD"),
           ValueIn(contents, "STATUS"), ValueIn(contents, "SEQUENCE"))
    case (Some(uid), Some(verb), Some(status), Some(sequence)) =>
      (match ParseInt(sequence)
       case None => UnreadableInvite(SequenceNotANumber)
       case Some(n) => Identity(CalendarInvite(uid, Upper(verb), Upper(status), n)))
    case _ => UnreadableInvite(MissingProperty)
  }

  method ParseInvite(source: Source) returns (reading: Reading)
    ensures reading == ReadingOf(source)
  {
    match source
    case NoCalendarPart =>
      reading := NoInvite;
    case GarbledPart =>
      reading := UnreadableInvite(Undecodable);
    case CalendarPart(lines) =>
      var properties := ICalendarProperties(lines);
      if "UID" !in properties || "METHOD" !in properties || "STATUS" !in properties || "SEQUENCE" !in properties {
        return UnreadableInvite(MissingProperty);
      }
      var sequence := ParseInt(properties["SEQUENCE"]);
      if sequence.None? {
        return UnreadableInvite(SequenceNotANumber);
      }
      reading := Identity(CalendarInvite(
        properties["UID"], Upper(properties["METHOD"]), Upper(properties["STATUS"]), sequence.value));
  }

  /** The first announcement of a booking. */
  predicate IsConfirmation(invite: CalendarInvite) {
    invite.verb == "REQUEST" && invite.status == "CONFIRMED" && invite.sequence == 0
  }

  function InviteRole(reading: Reading): Role {
    match reading
    case Identity(invite) =>
      if IsConfirmation(invite) then Confirmation
      else if invite.verb == "CANCEL" || invite.sequence > 0 then Superseding
      else Unclassified
    case NoInvite => Absent
    case UnreadableInvite(_) => Unreadable
  }

  /** What a message means does not depend on how its sender cut the lines. */
  lemma {:induction false} RoleIgnoresFolding(fs: seq<Folding>, gs: seq<Folding>)
    requires Distinguishable(fs) && Distinguishable(gs) && Contents(fs) == Contents(gs)
    ensures ReadingOf(CalendarPart(Lines(fs))) == ReadingOf(CalendarPart(Lines(gs)))
    ensures InviteRole(ReadingOf(CalendarPart(Lines(fs)))) == InviteRole(ReadingOf(CalendarPart(Lines(gs))))
  {
    CleanUnfolds(fs);
    CleanUnfolds(gs);
  }

  lemma AddedAfter(contents: seq<string>, more: seq<string>, name: string)
    requires ValueIn(contents, name).Some?
    ensures ValueIn(contents + more, name) == ValueIn(contents, name)
  {
    if more == [] {
      assert contents + more == contents;
    } else {
      var shorter := more[..|more| - 1];
      AddedAfter(contents, shorter, name);
      ValueInSnoc(contents + shorter, more[|more| - 1], name);
      assert contents + more == (contents + shorter) + [more[|more| - 1]];
    }
  }

  /** Nothing after a complete identity, such as a second event or an alarm, changes it. */
  lemma {:induction false} FirstIdentityWins(contents: seq<string>, more: seq<string>)
    requires IdentityOf(contents) != UnreadableInvite(MissingProperty)
    ensures IdentityOf(contents + more) == IdentityOf(contents)
  {
    AddedAfter(contents, more, "UID");
    AddedAfter(contents, more, "METHOD");
    AddedAfter(contents, more, "STATUS");
    AddedAfter(contents, more, "SEQUENCE");
  }
}
