/**
 Whole calendar objects: printing an event or a task without reminders,
 reading a body, and what comes back.
 */
module ICalObject {
  import opened JsString
  import opened Results
  import opened ICalLine
  import opened QuotedScan
  import ICalText
  import LineFolding
  import TextEscape

  // ---------- properties ----------

  datatype Property =
    | UID | DTSTAMP | SUMMARY | DESCRIPTION | LOCATION | URL
    | DTSTART | DTEND | DUE | STATUS | COMPLETED | PERCENT_COMPLETE | SEQUENCE | RRULE
    | ORGANIZER | ATTENDEE | ATTACH

  function PropertyWord(p: Property): string {
    match p
    case UID => "UID"
    case DTSTAMP => "DTSTAMP"
    case SUMMARY => "SUMMARY"
    case DESCRIPTION => "DESCRIPTION"
    case LOCATION => "LOCATION"
    case URL => "URL"
    case DTSTART => "DTSTART"
    case DTEND => "DTEND"
    case DUE => "DUE"
    case STATUS => "STATUS"
    case COMPLETED => "COMPLETED"
    case PERCENT_COMPLETE => "PERCENT-COMPLETE"
    case SEQUENCE => "SEQUENCE"
    case RRULE => "RRULE"
    case ORGANIZER => "ORGANIZER"
    case ATTENDEE => "ATTENDEE"
    case ATTACH => "ATTACH"
  }

  lemma PropertyWords(p: Property)
    ensures IsWord(PropertyWord(p))
  {
  }

  function PropertyName(p: Property): Str {
    PropertyWords(p);
    L(PropertyWord(p))
  }

  lemma WordsDiffer(p: Property, q: Property)
    requires IsWord(PropertyWord(p)) && IsWord(PropertyWord(q))
    requires p != q
    ensures Signature(PropertyWord(p)) != Signature(PropertyWord(q))
  {
  }

  lemma NamesDiffer(p: Property, q: Property)
    requires p != q
    ensures PropertyName(p) != PropertyName(q)
  {
    PropertyWords(p);
    PropertyWords(q);
    WordsDiffer(p, q);
    LiteralsDiffer(PropertyWord(p), PropertyWord(q));
  }

  /** Property names are plain words, and none can be mistaken for BEGIN or END. */
  lemma NameIsWord(p: Property)
    ensures PlainWord(PropertyName(p))
    ensures PropertyName(p)[0] != 'B' as int && PropertyName(p)[0] != 'E' as int
  {
    PropertyWords(p);
    assert PropertyWord(p)[0] != 'B' && PropertyWord(p)[0] != 'E';
  }

  /** The text of a line that prints property `p`: its name, then parameters or the value. */
  predicate Prints(text: Str, p: Property) {
    var name := PropertyName(p);
    OneLine(text) && name <= text && |text| > |name| && (text[|name|] == COLON || text[|name|] == SEMICOLON)
  }

  /** A printed line together with the property it prints. */
  datatype Printed = Printed(property: Property, text: Str)

  predicate AllPrint(lines: seq<Printed>) {
    forall i | 0 <= i < |lines| :: Prints(lines[i].text, lines[i].property)
  }

  function Texts(lines: seq<Printed>): (r: seq<Str>)
    ensures |r| == |lines|
    ensures forall i | 0 <= i < |lines| :: r[i] == lines[i].text
  {
    seq(|lines|, i requires 0 <= i < |lines| => lines[i].text)
  }

  // ---------- printing ----------

  /**
   What `buildICalendar` prints from. Date formatting, recurrence rules,
   attachments and the time zone block are printed elsewhere; their lines are
   part of the input here.
   */
  datatype CalendarInput = CalendarInput(
    task: bool, uid: Str, name: Str, content: Option<Str>, location: Option<Str>, url: Option<Str>,
    organizer: Option<Person>, attendees: seq<Person>,
    stamp: Str, zone: seq<Str>, schedule: seq<Printed>, attachments: seq<Printed>)

  function Field(p: Property, value: Str): Printed {
    Printed(p, PropertyName(p) + [COLON] + value)
  }

  function TextField(p: Property, value: Option<Str>): seq<Printed> {
    if value.Some? && value.value != [] then [Field(p, TextEscape.ICalEscape(value.value))] else []
  }

  function RawField(p: Property, value: Option<Str>): seq<Printed> {
    if value.Some? && value.value != [] then [Field(p, value.value)] else []
  }

  function PersonField(kind: PersonKind, person: Person): Printed
    requires OneLine(person.email)
  {
    Printed(if kind == Organizer then ORGANIZER else ATTENDEE, PersonLine(kind, person).value)
  }

  predicate EmailsFit(people: seq<Person>) {
    forall i | 0 <= i < |people| :: OneLine(people[i].email)
  }

  function AttendeeFields(people: seq<Person>): (r: seq<Printed>)
    requires EmailsFit(people)
    ensures |r| == |people|
    ensures forall i | 0 <= i < |people| :: r[i] == PersonField(Attendee, people[i])
  {
    seq(|people|, i requires 0 <= i < |people| => PersonField(Attendee, people[i]))
  }

  function OrganizerFields(input: CalendarInput): seq<Printed>
    requires input.organizer.Some? ==> OneLine(input.organizer.value.email)
  {
    if input.organizer.Some? then [PersonField(Organizer, input.organizer.value)] else []
  }

  /** Inputs that are refused: a path or break in the uid, a break in the url or an address. */
  predicate Refused(input: CalendarInput) {
    || (exists i :: 0 <= i < |input.uid| && input.uid[i] in {CR, LF, PERCENT, SLASH, BACKSLASH})
    || (input.url.Some? && !OneLine(input.url.value))
    || (input.organizer.Some? && !OneLine(input.organizer.value.email))
    || !EmailsFit(input.attendees)
  }

  function HeadFields(input: CalendarInput): seq<Printed> {
    [Field(UID, TextEscape.ICalEscape(input.uid)), Field(DTSTAMP, input.stamp),
     Field(SUMMARY, TextEscape.ICalEscape(input.name))]
  }

  /** The lines of the component, in printing order. */
  function Fields(input: CalendarInput): (r: seq<Printed>)
    requires !Refused(input)
    ensures r != []
  {
    HeadFields(input)
    + (TextField(DESCRIPTION, input.content)
    + (TextField(LOCATION, input.location)
    + (RawField(URL, input.url)
    + (input.schedule
    + (OrganizerFields(input)
    + (AttendeeFields(input.attendees)
    + input.attachments))))))
  }

  function Begin(task: bool): Str {
    if task then L("BEGIN:VTODO") else L("BEGIN:VEVENT")
  }

  function End(task: bool): Str {
    if task then L("END:VTODO") else L("END:VEVENT")
  }

  function Header(): seq<Str> {
    [L("BEGIN:VCALENDAR"), L("VERSION:2.0"), L("CALSCALE:GREGORIAN"), L("PRODID:-//Sockethub//CalDAV Platform//EN")]
  }

  /** All lines of the object, unfolded. */
  function ObjectLines(input: CalendarInput): seq<Str>
    requires !Refused(input)
  {
    (Header() + input.zone)
    + ([Begin(input.task)] + (Texts(Fields(input)) + ([End(input.task)] + [L("END:VCALENDAR")])))
  }

  /** The body `buildICalendar` returns. */
  function Printing(input: CalendarInput): Result<Str> {
    if Refused(input) then Err("invalid input") else Ok(LineFolding.ICalBody(ObjectLines(input)))
  }

  lemma TextsConcat(a: seq<Printed>, b: seq<Printed>)
    ensures Texts(a + b) == Texts(a) + Texts(b)
  {
  }

  lemma TextsOfTail(a: seq<Printed>, b: seq<Printed>, c: seq<Printed>, d: seq<Printed>)
    ensures Texts(a + (b + (c + d))) == Texts(a) + (Texts(b) + (Texts(c) + Texts(d)))
  {
    TextsConcat(c, d);
    TextsConcat(b, c + d);
    TextsConcat(a, b + (c + d));
  }

  lemma LinesSoFar(input: CalendarInput, front: seq<Str>)
    requires !Refused(input)
    ensures front + Texts(Fields(input)) ==
      front + Texts(HeadFields(input)) + Texts(TextField(DESCRIPTION, input.content))
      + Texts(TextField(LOCATION, input.location)) + Texts(RawField(URL, input.url)) + Texts(input.schedule)
      + Texts(OrganizerFields(input)) + Texts(AttendeeFields(input.attendees)) + Texts(input.attachments)
  {
    var h, d := HeadFields(input), TextField(DESCRIPTION, input.content);
    var l, u := TextField(LOCATION, input.location), RawField(URL, input.url);
    var s, o := input.schedule, OrganizerFields(input);
    var a, t := AttendeeFields(input.attendees), input.attachments;
    TextsOfTail(s, o, a, t);
    TextsOfTail(d, l, u, s + (o + (a + t)));
    TextsConcat(h, d + (l + (u + (s + (o + (a + t))))));
    LeftNested(front, Texts(h), Texts(d), Texts(l) + (Texts(u) + (Texts(s) + (Texts(o) + (Texts(a) + Texts(t))))));
    var middle := front + Texts(h) + Texts(d);
    LeftNested(middle, Texts(l), Texts(u), Texts(s) + (Texts(o) + (Texts(a) + Texts(t))));
    LeftNested(middle + Texts(l) + Texts(u), Texts(s), Texts(o), Texts(a) + Texts(t));
    ConcatAssociates(middle + Texts(l) + Texts(u) + Texts(s) + Texts(o), Texts(a), Texts(t));
  }

  /** The attendee lines, and whether every address fits on a line. */
  method PrintAttendees(people: seq<Person>) returns (ok: bool, r: seq<Str>)
    ensures ok <==> EmailsFit(people)
    ensures ok ==> r == Texts(AttendeeFields(people))
  {
    r := [];
    for i := 0 to |people|
      invariant EmailsFit(people[..i]) && r == Texts(AttendeeFields(people[..i]))
    {
      var line := PersonLine(Attendee, people[i]);
      if line.Err? {
        assert !OneLine(people[i].email);
        return false, r;
      }
      AttendeesNext(people, i);
      r := r + [line.value];
    }
    ok := true;
    assert people[..|people|] == people;
  }

  lemma AttendeesNext(people: seq<Person>, i: nat)
    requires i < |people| && EmailsFit(people[..i]) && OneLine(people[i].email)
    ensures EmailsFit(people[..i + 1])
    ensures Texts(AttendeeFields(people[..i + 1]))
         == Texts(AttendeeFields(people[..i])) + [PersonField(Attendee, people[i]).text]
  {
    assert people[..i + 1] == people[..i] + [people[i]];
  }

  /** The folds and the final join of `buildICalendar`. */
  method FoldLines(lines: seq<Str>) returns (body: Str)
    ensures body == LineFolding.ICalBody(lines)
  {
    var folded: seq<Str> := [];
    for i := 0 to |lines|
      invariant folded == LineFolding.MapICalFold(lines[..i])
    {
      var line := LineFolding.FoldLine(lines[i]);
      folded := folded + [line];
    }
    assert lines[..|lines|] == lines;
    body := Join(folded, CRLF) + CRLF;
  }

  method BuildICalendar(input: CalendarInput) returns (r: Result<Str>)
    ensures r == Printing(input)
  {
    if exists i :: 0 <= i < |input.uid| && input.uid[i] in {CR, LF, PERCENT, SLASH, BACKSLASH} {
      return Err("invalid input");
    }
    var front := Header() + input.zone + [Begin(input.task)];
    var lines := front + Texts(HeadFields(input));
    lines := lines + Texts(TextField(DESCRIPTION, input.content));
    lines := lines + Texts(TextField(LOCATION, input.location));
    if input.url.Some? && !OneLine(input.url.value) {
      return Err("invalid input");
    }
    lines := lines + Texts(RawField(URL, input.url));
    lines := lines + Texts(input.schedule);
    if input.organizer.Some? && !OneLine(input.organizer.value.email) {
      return Err("invalid input");
    }
    lines := lines + Texts(OrganizerFields(input));
    var ok, attendees := PrintAttendees(input.attendees);
    if !ok {
      return Err("invalid input");
    }
    lines := lines + attendees;
    lines := lines + Texts(input.attachments);
    LinesSoFar(input, front);
    var last := [End(input.task)] + [L("END:VCALENDAR")];
    LeftNested(Header() + input.zone, [Begin(input.task)], Texts(Fields(input)), last);
    var body := FoldLines(lines + last);
    return Ok(body);
  }

  // Lines of the time zone block: section markers, a zone name and offsets.
  predicate ZoneLine(line: Str) {
    && OneLine(line)
    && !LineFolding.StartsBlank(line)
    && (forall i | 0 <= i < |line| :: !ICalText.IsSeparator(line[i]))
    && !ICalText.EndsWith(line, Begin(true))
    && !ICalText.EndsWith(line, Begin(false))
    && !(End(true) <= line)
  }

  /** What the parts printed elsewhere are known to look like. */
  predicate PartsFit(input: CalendarInput) {
    && OneLine(input.stamp)
    && (forall i | 0 <= i < |input.zone| :: ZoneLine(input.zone[i]))
    && AllPrint(input.schedule)
    && (forall i | 0 <= i < |input.schedule| :: input.schedule[i].property
          in {DTSTART, DTEND, DUE, STATUS, COMPLETED, PERCENT_COMPLETE, SEQUENCE, RRULE})
    && AllPrint(input.attachments)
    && (forall i | 0 <= i < |input.attachments| :: input.attachments[i].property == ATTACH)
  }

  // ---------- reading ----------

  const BEGIN_ALARM: Str := L("BEGIN:VALARM")
  const END_ALARM: Str := L("END:VALARM")

  datatype CalendarRead = CalendarRead(
    task: bool, uid: Str, name: Str, content: Option<Str>, location: Option<Str>, url: Option<Str>,
    organizer: Option<PersonRead>, attendees: seq<PersonRead>)

  /** The parsed lines of a given name, in order. */
  function AllNamed(lines: seq<Str>, name: Str): seq<Line> {
    if lines == [] then [] else IfNamed(lines[0], name) + AllNamed(lines[1..], name)
  }

  function IfNamed(line: Str, name: Str): seq<Line> {
    var parsed := ParseLine(line);
    if parsed.Some? && parsed.value.name == name then [parsed.value] else []
  }

  function FirstValue(lines: seq<Str>, p: Property): Option<Str> {
    var all := AllNamed(lines, PropertyName(p));
    if all == [] then None else Some(all[0].value)
  }

  function FirstText(lines: seq<Str>, p: Property): Option<Str> {
    var value := FirstValue(lines, p);
    if value.Some? then Some(TextEscape.ICalUnescape(value.value)) else None
  }

  function ReadPeople(lines: seq<Line>): (r: seq<PersonRead>)
    ensures |r| == |lines|
    ensures forall i | 0 <= i < |lines| :: r[i] == ReadPerson(lines[i])
  {
    seq(|lines|, i requires 0 <= i < |lines| => ReadPerson(lines[i]))
  }

  function ReadLines(task: bool, lines: seq<Str>): Result<CalendarRead> {
    var uid := FirstValue(lines, UID);
    var summary := FirstValue(lines, SUMMARY);
    if uid.None? || uid.value == [] || summary.None? || summary.value == [] then
      Err("calendar item is missing UID or SUMMARY")
    else
      var organizers := AllNamed(lines, PropertyName(ORGANIZER));
      Ok(CalendarRead(
        task, TextEscape.ICalUnescape(uid.value), TextEscape.ICalUnescape(summary.value),
        FirstText(lines, DESCRIPTION), FirstText(lines, LOCATION), FirstValue(lines, URL),
        if organizers == [] then None else Some(ReadPerson(organizers[0])),
        ReadPeople(AllNamed(lines, PropertyName(ATTENDEE)))))
  }

  /** What `parseICalendar` returns for a body (the fields modelled here). */
  function Reading(body: Str): Result<CalendarRead> {
    var unfolded := LineFolding.ICalUnfold(body);
    var task := ICalText.TestLine(unfolded, Begin(true));
    var section := ICalText.Section(unfolded, Begin(task), End(task));
    if section.None? || section.value == [] then Err("invalid calendar data")
    else
      var kept := ICalText.RemoveSections(section.value, BEGIN_ALARM, END_ALARM);
      ReadLines(task, ICalText.SplitLines(kept))
  }

  lemma {:induction false} AllNamedConcat(a: seq<Str>, b: seq<Str>, name: Str)
    ensures AllNamed(a + b, name) == AllNamed(a, name) + AllNamed(b, name)
  {
    if a == [] {
      assert a + b == b;
    } else {
      AllNamedConcat(a[1..], b, name);
      TailOfConcat(a, b);
      ConcatAssociates(IfNamed(a[0], name), AllNamed(a[1..], name), AllNamed(b, name));
    }
  }

  lemma AllNamedNext(lines: seq<Str>, i: nat, name: Str)
    requires i < |lines|
    ensures AllNamed(lines[..i + 1], name) == AllNamed(lines[..i], name) + IfNamed(lines[i], name)
  {
    var one := [lines[i]];
    assert lines[..i + 1] == lines[..i] + one;
    AllNamedConcat(lines[..i], one, name);
    assert one[1..] == [];
  }

  function Lookup(values: map<Str, seq<Line>>, name: Str): seq<Line> {
    if name in values then values[name] else []
  }

  method ParseICalendar(body: Str) returns (r: Result<CalendarRead>)
    ensures r == Reading(body)
  {
    var unfolded := LineFolding.ICalUnfold(body);
    var task := ICalText.TestLine(unfolded, Begin(true));
    var section := ICalText.Section(unfolded, Begin(task), End(task));
    if section.None? || section.value == [] {
      return Err("invalid calendar data");
    }
    var kept := ICalText.RemoveSections(section.value, BEGIN_ALARM, END_ALARM);
    r := ReadComponent(task, ICalText.SplitLines(kept));
  }

  /** The part of `parseICalendar` after the component's lines are known. */
  method ReadComponent(task: bool, lines: seq<Str>) returns (r: Result<CalendarRead>)
    ensures r == ReadLines(task, lines)
  {
    var values := CollectLines(lines);
    var uids := Lookup(values, PropertyName(UID));
    var summaries := Lookup(values, PropertyName(SUMMARY));
    if uids == [] || uids[0].value == [] || summaries == [] || summaries[0].value == [] {
      return Err("calendar item is missing UID or SUMMARY");
    }
    var descriptions := Lookup(values, PropertyName(DESCRIPTION));
    var locations := Lookup(values, PropertyName(LOCATION));
    var urls := Lookup(values, PropertyName(URL));
    var organizers := Lookup(values, PropertyName(ORGANIZER));
    var item := CalendarRead(
      task, TextEscape.ICalUnescape(uids[0].value), TextEscape.ICalUnescape(summaries[0].value),
      None, None, None, None, []);
    assert FirstValue(lines, UID) == Some(uids[0].value) && FirstValue(lines, SUMMARY) == Some(summaries[0].value);
    if descriptions != [] {
      item := item.(content := Some(TextEscape.ICalUnescape(descriptions[0].value)));
    }
    if locations != [] {
      item := item.(location := Some(TextEscape.ICalUnescape(locations[0].value)));
    }
    if urls != [] {
      item := item.(url := Some(urls[0].value));
    }
    if organizers != [] {
      item := item.(organizer := Some(ReadPerson(organizers[0])));
    }
    item := item.(attendees := ReadPeople(Lookup(values, PropertyName(ATTENDEE))));
    return Ok(item);
  }

  method CollectLines(lines: seq<Str>) returns (values: map<Str, seq<Line>>)
    ensures forall name :: Lookup(values, name) == AllNamed(lines, name)
  {
    values := map[];
    for i := 0 to |lines|
      invariant Collected(values, lines[..i])
    {
      var parsed := ParseContentLine(lines[i]);
      CollectedNext(values, lines, i);
      if parsed.None? {
        continue;
      }
      var list := Lookup(values, parsed.value.name);
      values := values[parsed.value.name := list + [parsed.value]];
    }
    assert lines[..|lines|] == lines;
  }

  /** The map holds the parsed lines so far, by name and in order. */
  ghost predicate Collected(values: map<Str, seq<Line>>, lines: seq<Str>) {
    forall name :: Lookup(values, name) == AllNamed(lines, name)
  }

  lemma CollectedNext(values: map<Str, seq<Line>>, lines: seq<Str>, i: nat)
    requires i < |lines| && Collected(values, lines[..i])
    ensures ParseLine(lines[i]).None? ==> Collected(values, lines[..i + 1])
    ensures ParseLine(lines[i]).Some? ==>
      var line := ParseLine(lines[i]).value;
      Collected(values[line.name := Lookup(values, line.name) + [line]], lines[..i + 1])
  {
    var parsed := ParseLine(lines[i]);
    var next := if parsed.None? then values
                else values[parsed.value.name := Lookup(values, parsed.value.name) + [parsed.value]];
    forall name ensures Lookup(next, name) == AllNamed(lines[..i + 1], name) {
      AllNamedNext(lines, i, name);
      assert Lookup(values, name) == AllNamed(lines[..i], name);
    }
  }
}
