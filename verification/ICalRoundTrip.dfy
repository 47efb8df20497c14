/**
 Reading back a printed event or task: which inputs come back, and as what.
 */
module ICalRoundTrip {
  import opened JsString
  import opened Results
  import opened ICalLine
  import opened QuotedScan
  import opened ICalObject
  import ICalText
  import LineFolding
  import TextEscape

  // ---------- single lines ----------

  /** A line that prints a property parses to that property, or not at all. */
  lemma PrintedName(text: Str, p: Property)
    requires Prints(text, p)
    ensures ParseLine(text).Some? ==> ParseLine(text).value.name == PropertyName(p)
  {
    NameIsWord(p);
    PrefixApart(PropertyName(p), text);
    NamedFirst(PropertyName(p), text[|PropertyName(p)|..]);
  }

  lemma PrefixApart(prefix: Str, text: Str)
    requires prefix <= text
    ensures prefix + text[|prefix|..] == text
  {
  }

  lemma NamedFirst(name: Str, tail: Str)
    requires PlainWord(name) && tail != [] && (tail[0] == COLON || tail[0] == SEMICOLON)
    ensures ParseLine(name + tail).Some? ==> ParseLine(name + tail).value.name == name
  {
    PlainWordIsUpper(name);
    PlainClosed(name, COLON);
    IndexSkips(name, tail, COLON, false);
    var colon := UnquotedIndex(name + tail, COLON, false);
    if colon.Some? {
      var rest := tail[..colon.value - |name|];
      assert (name + tail)[..colon.value] == name + rest;
      NameComesFirst(name, rest);
      NameOfLine(name + tail, colon.value, name);
    }
  }

  lemma NameOfLine(text: Str, colon: nat, name: Str)
    requires colon < |text| && UnquotedIndex(text, COLON, false) == Some(colon)
    requires Upper(name) == name && SplitOutside(text[..colon], SEMICOLON)[0] == name
    ensures ParseLine(text).Some? ==> ParseLine(text).value.name == name
  {
  }

  lemma NameComesFirst(name: Str, rest: Str)
    requires PlainWord(name) && (rest == [] || rest[0] == SEMICOLON)
    ensures SplitOutside(name + rest, SEMICOLON)[0] == name
  {
    PlainWordIsUpper(name);
    PlainClosed(name, SEMICOLON);
    SplitSkips(name, rest, SEMICOLON, false, []);
    assert [] + name == name;
  }

  lemma FieldPrints(p: Property, value: Str)
    requires OneLine(value)
    ensures Prints(Field(p, value).text, p)
    ensures ParseLine(Field(p, value).text) == Some(Line(PropertyName(p), map[], value))
  {
    NameIsWord(p);
    PlainWordIsUpper(PropertyName(p));
    ParseInvertsPrint(PropertyName(p), [], value);
    assert [PropertyName(p)] + [] == [PropertyName(p)];
  }

  lemma EncodedOneLine(key: Str, value: Str)
    requires OneLine(key)
    ensures OneLine(Pair(key, EncodeParameter(value)))
  {
    CaretEncodeIsOnePass(value);
  }

  lemma PlainOneLine(key: Str, value: Str)
    requires PlainWord(key) && PlainWord(value)
    ensures OneLine(Pair(key, value))
  {
    PlainWordIsUpper(key);
    PlainWordIsUpper(value);
  }

  lemma AttendeeParamsOneLine(person: Person)
    ensures AllOneLine(RoleParams(person)) && AllOneLine(StatusParams(person)) && AllOneLine(RsvpParams(person))
  {
    if person.role.Some? {
      RoleTexts(person.role.value);
      PlainOneLine(L("ROLE"), Upper(RoleText(person.role.value)));
    }
    if person.status.Some? {
      StatusTexts(person.status.value);
      PlainOneLine(L("PARTSTAT"), Upper(StatusText(person.status.value)));
    }
    if person.rsvp.Some? {
      PlainOneLine(L("RSVP"), if person.rsvp.value then L("TRUE") else L("FALSE"));
    }
  }

  lemma ParamsOneLine(kind: PersonKind, person: Person)
    ensures AllOneLine(PersonParams(kind, person))
  {
    var n, r, s, v := NameParams(person), RoleParams(person), StatusParams(person), RsvpParams(person);
    if person.name.Some? { EncodedOneLine(L("CN"), person.name.value); }
    AttendeeParamsOneLine(person);
    AllOneLineConcat(r, s);
    AllOneLineConcat(r + s, v);
    AllOneLineConcat(n, if kind == Attendee then r + s + v else []);
  }

  lemma PersonPrints(kind: PersonKind, person: Person)
    requires OneLine(person.email)
    ensures var field := PersonField(kind, person); Prints(field.text, field.property)
  {
    var params := PersonParams(kind, person);
    var field := PersonField(kind, person);
    var name := PropertyName(field.property);
    var value := L("mailto:") + person.email;
    assert field.text == Print(name, params, value);
    NameIsWord(field.property);
    ParamsOneLine(kind, person);
    MailtoOneLine(person.email);
    PrintOneLine(name, params, value);
    PrintStart(name, params, value);
  }

  lemma MailtoOneLine(email: Str)
    requires OneLine(email)
    ensures OneLine(L("mailto:") + email)
  {
  }

  lemma PrintOneLine(name: Str, params: seq<Str>, value: Str)
    requires PlainWord(name) && AllOneLine(params) && OneLine(value)
    ensures OneLine(Print(name, params, value))
  {
    PlainWordIsUpper(name);
    AllOneLineConcat([name], params);
    JoinOneLine([name] + params, SEMICOLON);
  }

  lemma PrintStart(name: Str, params: seq<Str>, value: Str)
    ensures var text := Print(name, params, value);
      name <= text && |text| > |name| && (text[|name|] == COLON || text[|name|] == SEMICOLON)
  {
    if params != [] {
      assert ([name] + params)[1..] == params;
    } else {
      assert [name] + params == [name];
    }
  }

  // ---------- lines of one property ----------

  function OfProperty(lines: seq<Printed>, p: Property): seq<Printed> {
    if lines == [] then []
    else (if lines[0].property == p then [lines[0]] else []) + OfProperty(lines[1..], p)
  }

  lemma {:induction false} OfPropertyConcat(a: seq<Printed>, b: seq<Printed>, p: Property)
    ensures OfProperty(a + b, p) == OfProperty(a, p) + OfProperty(b, p)
  {
    if a == [] {
      assert a + b == b;
    } else {
      OfPropertyConcat(a[1..], b, p);
      TailOfConcat(a, b);
      ConcatAssociates(if a[0].property == p then [a[0]] else [], OfProperty(a[1..], p), OfProperty(b, p));
    }
  }

  lemma {:induction false} OfOtherProperty(lines: seq<Printed>, p: Property)
    requires forall i | 0 <= i < |lines| :: lines[i].property != p
    ensures OfProperty(lines, p) == []
  {
    if lines != [] {
      OfOtherProperty(lines[1..], p);
    }
  }

  lemma {:induction false} OfSameProperty(lines: seq<Printed>, p: Property)
    requires forall i | 0 <= i < |lines| :: lines[i].property == p
    ensures OfProperty(lines, p) == lines
  {
    if lines != [] {
      OfSameProperty(lines[1..], p);
    }
  }

  /** Looking a property up by name finds exactly the lines that print it. */
  lemma {:induction false} LookupFinds(lines: seq<Printed>, p: Property)
    requires AllPrint(lines)
    ensures AllNamed(Texts(lines), PropertyName(p)) == AllNamed(Texts(OfProperty(lines, p)), PropertyName(p))
  {
    if lines != [] {
      var line := lines[0];
      LookupFinds(lines[1..], p);
      AllNamedStep(lines, PropertyName(p));
      if line.property == p {
        var kept := OfProperty(lines[1..], p);
        AllNamedStep([line] + kept, PropertyName(p));
      } else {
        PrintedName(line.text, line.property);
        NamesDiffer(line.property, p);
        assert OfProperty(lines, p) == OfProperty(lines[1..], p);
      }
    }
  }

  lemma AllNamedStep(lines: seq<Printed>, name: Str)
    requires lines != []
    ensures AllNamed(Texts(lines), name) == IfNamed(lines[0].text, name) + AllNamed(Texts(lines[1..]), name)
  {
    assert Texts(lines)[1..] == Texts(lines[1..]);
  }

  lemma FieldsOf(input: CalendarInput, p: Property)
    requires !Refused(input)
    ensures OfProperty(Fields(input), p) ==
      OfProperty(HeadFields(input), p)
      + (OfProperty(TextField(DESCRIPTION, input.content), p)
      + (OfProperty(TextField(LOCATION, input.location), p)
      + (OfProperty(RawField(URL, input.url), p)
      + (OfProperty(input.schedule, p)
      + (OfProperty(OrganizerFields(input), p)
      + (OfProperty(AttendeeFields(input.attendees), p)
      + OfProperty(input.attachments, p)))))))
  {
    var t, a := input.attachments, AttendeeFields(input.attendees);
    var o, s := OrganizerFields(input), input.schedule;
    var u, l := RawField(URL, input.url), TextField(LOCATION, input.location);
    var d, h := TextField(DESCRIPTION, input.content), HeadFields(input);
    OfPropertyConcat(a, t, p);
    OfPropertyConcat(o, a + t, p);
    OfPropertyConcat(s, o + (a + t), p);
    OfPropertyConcat(u, s + (o + (a + t)), p);
    OfPropertyConcat(l, u + (s + (o + (a + t))), p);
    OfPropertyConcat(d, l + (u + (s + (o + (a + t)))), p);
    OfPropertyConcat(h, d + (l + (u + (s + (o + (a + t))))), p);
  }

  // What the segments contribute when none of them is about the property.
  lemma TailSegments(input: CalendarInput, p: Property)
    requires !Refused(input) && PartsFit(input)
    requires p in {UID, DTSTAMP, SUMMARY, DESCRIPTION, LOCATION, URL, ORGANIZER, ATTENDEE}
    ensures OfProperty(input.schedule, p) == [] && OfProperty(input.attachments, p) == []
    ensures OfProperty(OrganizerFields(input), p) == if p == ORGANIZER then OrganizerFields(input) else []
    ensures OfProperty(AttendeeFields(input.attendees), p) ==
      if p == ATTENDEE then AttendeeFields(input.attendees) else []
  {
    OfOtherProperty(input.schedule, p);
    OfOtherProperty(input.attachments, p);
    if p == ORGANIZER {
      OfSameProperty(OrganizerFields(input), p);
    } else {
      OfOtherProperty(OrganizerFields(input), p);
    }
    if p == ATTENDEE {
      OfSameProperty(AttendeeFields(input.attendees), p);
    } else {
      OfOtherProperty(AttendeeFields(input.attendees), p);
    }
  }

  lemma TextSegments(input: CalendarInput, p: Property)
    ensures OfProperty(TextField(DESCRIPTION, input.content), p) ==
      if p == DESCRIPTION then TextField(DESCRIPTION, input.content) else []
    ensures OfProperty(TextField(LOCATION, input.location), p) ==
      if p == LOCATION then TextField(LOCATION, input.location) else []
    ensures OfProperty(RawField(URL, input.url), p) == if p == URL then RawField(URL, input.url) else []
  {
    var d, l, u := TextField(DESCRIPTION, input.content), TextField(LOCATION, input.location), RawField(URL, input.url);
    if p == DESCRIPTION { OfSameProperty(d, p); } else { OfOtherProperty(d, p); }
    if p == LOCATION { OfSameProperty(l, p); } else { OfOtherProperty(l, p); }
    if p == URL { OfSameProperty(u, p); } else { OfOtherProperty(u, p); }
  }

  lemma HeadSegment(input: CalendarInput, p: Property)
    ensures OfProperty(HeadFields(input), p) ==
      if p == UID then [HeadFields(input)[0]]
      else if p == DTSTAMP then [HeadFields(input)[1]]
      else if p == SUMMARY then [HeadFields(input)[2]]
      else []
  {
    var h := HeadFields(input);
    assert h == [h[0]] + ([h[1]] + [h[2]]);
    OfPropertyConcat([h[0]], [h[1]] + [h[2]], p);
    OfPropertyConcat([h[1]], [h[2]], p);
    SingleField(h[0], p);
    SingleField(h[1], p);
    SingleField(h[2], p);
  }

  lemma SingleField(field: Printed, p: Property)
    ensures OfProperty([field], p) == if field.property == p then [field] else []
  {
    assert [field][1..] == [];
  }

  /** The lines printed for a property that the parser reads. */
  function Wanted(input: CalendarInput, p: Property): seq<Printed>
    requires !Refused(input)
  {
    match p
    case UID => [HeadFields(input)[0]]
    case DTSTAMP => [HeadFields(input)[1]]
    case SUMMARY => [HeadFields(input)[2]]
    case DESCRIPTION => TextField(DESCRIPTION, input.content)
    case LOCATION => TextField(LOCATION, input.location)
    case URL => RawField(URL, input.url)
    case ORGANIZER => OrganizerFields(input)
    case ATTENDEE => AttendeeFields(input.attendees)
    case _ => []
  }

  lemma FieldsWanted(input: CalendarInput, p: Property)
    requires !Refused(input) && PartsFit(input)
    requires p in {UID, DTSTAMP, SUMMARY, DESCRIPTION, LOCATION, URL, ORGANIZER, ATTENDEE}
    ensures OfProperty(Fields(input), p) == Wanted(input, p)
  {
    FieldsOf(input, p);
    TailSegments(input, p);
    TextSegments(input, p);
    HeadSegment(input, p);
    AmongNothing(Wanted(input, p));
  }

  lemma AmongNothing<T>(a: seq<T>)
    ensures a + ([] + ([] + ([] + ([] + ([] + ([] + [])))))) == a
    ensures [] + (a + ([] + ([] + ([] + ([] + ([] + [])))))) == a
    ensures [] + ([] + (a + ([] + ([] + ([] + ([] + [])))))) == a
    ensures [] + ([] + ([] + (a + ([] + ([] + ([] + [])))))) == a
    ensures [] + ([] + ([] + ([] + ([] + (a + ([] + [])))))) == a
    ensures [] + ([] + ([] + ([] + ([] + ([] + (a + [])))))) == a
  {
  }

  lemma AllPrintConcat(a: seq<Printed>, b: seq<Printed>)
    requires AllPrint(a) && AllPrint(b)
    ensures AllPrint(a + b)
  {
  }

  lemma TextFieldPrints(p: Property, value: Option<Str>)
    ensures AllPrint(TextField(p, value))
  {
    if value.Some? && value.value != [] {
      TextEscape.ICalEscapeIsOnePass(value.value);
      FieldPrints(p, TextEscape.ICalEscape(value.value));
    }
  }

  lemma FieldsPrint(input: CalendarInput)
    requires !Refused(input) && PartsFit(input)
    ensures AllPrint(Fields(input))
  {
    var t, a := input.attachments, AttendeeFields(input.attendees);
    var o, s := OrganizerFields(input), input.schedule;
    var u, l := RawField(URL, input.url), TextField(LOCATION, input.location);
    var d, h := TextField(DESCRIPTION, input.content), HeadFields(input);
    forall i | 0 <= i < |a| ensures Prints(a[i].text, a[i].property) { PersonPrints(Attendee, input.attendees[i]); }
    if input.organizer.Some? { PersonPrints(Organizer, input.organizer.value); }
    assert AllPrint(o);
    if input.url.Some? { FieldPrints(URL, input.url.value); }
    assert AllPrint(u);
    TextFieldPrints(LOCATION, input.location);
    TextFieldPrints(DESCRIPTION, input.content);
    HeadPrints(input);
    AllPrintConcat(a, t);
    AllPrintConcat(o, a + t);
    AllPrintConcat(s, o + (a + t));
    AllPrintConcat(u, s + (o + (a + t)));
    AllPrintConcat(l, u + (s + (o + (a + t))));
    AllPrintConcat(d, l + (u + (s + (o + (a + t)))));
    AllPrintConcat(h, d + (l + (u + (s + (o + (a + t))))));
  }

  lemma HeadPrints(input: CalendarInput)
    requires PartsFit(input)
    ensures AllPrint(HeadFields(input))
  {
    TextEscape.ICalEscapeIsOnePass(input.uid);
    TextEscape.ICalEscapeIsOnePass(input.name);
    FieldPrints(UID, TextEscape.ICalEscape(input.uid));
    FieldPrints(DTSTAMP, input.stamp);
    FieldPrints(SUMMARY, TextEscape.ICalEscape(input.name));
  }

  // ---------- what the parser finds in the component ----------

  lemma SingleNamed(field: Printed, name: Str)
    ensures AllNamed(Texts([field]), name) == IfNamed(field.text, name)
  {
    var texts := Texts([field]);
    assert texts == [field.text] && texts[1..] == [];
  }

  lemma TextFound(p: Property, value: Str)
    ensures AllNamed(Texts([Field(p, TextEscape.ICalEscape(value))]), PropertyName(p))
         == [Line(PropertyName(p), map[], TextEscape.ICalEscape(value))]
    ensures TextEscape.ICalUnescape(TextEscape.ICalEscape(value)) == Normalize(value)
    ensures TextEscape.ICalEscape(value) == [] <==> value == []
  {
    TextEscape.ICalEscapeIsOnePass(value);
    TextEscape.ICalTextRoundTrip(value);
    FieldPrints(p, TextEscape.ICalEscape(value));
    SingleNamed(Field(p, TextEscape.ICalEscape(value)), PropertyName(p));
  }

  /** Optional text as it comes back: an empty text is not printed at all. */
  function Returned(value: Option<Str>): Option<Str> {
    if value.Some? && value.value != [] then Some(Normalize(value.value)) else None
  }

  lemma FoundOnce(text: Str, name: Str, line: Line)
    requires ParseLine(text) == Some(line) && line.name == name
    ensures IfNamed(text, name) == [line]
  {
  }

  lemma AttendeeName()
    ensures KindName(Attendee) == PropertyName(ATTENDEE)
  {
  }

  lemma PersonFound(person: Person)
    requires OneLine(person.email)
    ensures var found := IfNamed(PersonField(Attendee, person).text, PropertyName(ATTENDEE));
      |found| == 1 && ReadPerson(found[0]) == Recovered(Attendee, person)
  {
    var text := PersonLine(Attendee, person).value;
    PersonRoundTrip(Attendee, person);
    AttendeeName();
    FoundOnce(text, PropertyName(ATTENDEE), ParseLine(text).value);
  }

  lemma {:induction false} PeopleFound(people: seq<Person>)
    requires EmailsFit(people)
    ensures var found := AllNamed(Texts(AttendeeFields(people)), PropertyName(ATTENDEE));
      |found| == |people| && forall i | 0 <= i < |people| :: ReadPerson(found[i]) == Recovered(Attendee, people[i])
  {
    var fields := AttendeeFields(people);
    if people != [] {
      PeopleFound(people[1..]);
      assert fields[1..] == AttendeeFields(people[1..]);
      assert Texts(fields)[1..] == Texts(fields[1..]);
      var rest := AllNamed(Texts(fields[1..]), PropertyName(ATTENDEE));
      PersonFound(people[0]);
      assert AllNamed(Texts(fields), PropertyName(ATTENDEE)) == IfNamed(fields[0].text, PropertyName(ATTENDEE)) + rest;
    }
  }

  function RecoveredPeople(people: seq<Person>): (r: seq<PersonRead>)
    ensures |r| == |people|
    ensures forall i | 0 <= i < |people| :: r[i] == Recovered(Attendee, people[i])
  {
    seq(|people|, i requires 0 <= i < |people| => Recovered(Attendee, people[i]))
  }

  /** What reading back the printed object must give. */
  function Expected(input: CalendarInput): CalendarRead {
    CalendarRead(
      input.task, input.uid, Normalize(input.name), Returned(input.content), Returned(input.location),
      if input.url.Some? && input.url.value != [] then input.url else None,
      if input.organizer.Some? then Some(Recovered(Organizer, input.organizer.value)) else None,
      RecoveredPeople(input.attendees))
  }

  lemma UidUnchanged(input: CalendarInput)
    requires !Refused(input)
    ensures Normalize(input.uid) == input.uid
  {
    NormalizeIdentity(input.uid);
  }

  lemma ReadText(input: CalendarInput, lines: seq<Str>, p: Property)
    requires !Refused(input) && PartsFit(input) && lines == Texts(Fields(input))
    requires p == DESCRIPTION || p == LOCATION
    ensures FirstText(lines, p) == Returned(if p == DESCRIPTION then input.content else input.location)
  {
    var value := if p == DESCRIPTION then input.content else input.location;
    FieldsPrint(input);
    LookupFinds(Fields(input), p);
    FieldsWanted(input, p);
    if value.Some? && value.value != [] { TextFound(p, value.value); }
  }

  lemma ReadUrl(input: CalendarInput, lines: seq<Str>)
    requires !Refused(input) && PartsFit(input) && lines == Texts(Fields(input))
    ensures FirstValue(lines, URL) == if input.url.Some? && input.url.value != [] then input.url else None
  {
    FieldsPrint(input);
    LookupFinds(Fields(input), URL);
    FieldsWanted(input, URL);
    if input.url.Some? && input.url.value != [] {
      FieldPrints(URL, input.url.value);
      SingleNamed(Field(URL, input.url.value), PropertyName(URL));
    }
  }

  lemma ReadHead(input: CalendarInput, lines: seq<Str>, p: Property)
    requires !Refused(input) && PartsFit(input) && lines == Texts(Fields(input))
    requires p == UID || p == SUMMARY
    ensures FirstValue(lines, p) == Some(TextEscape.ICalEscape(if p == UID then input.uid else input.name))
  {
    FieldsPrint(input);
    LookupFinds(Fields(input), p);
    FieldsWanted(input, p);
    TextFound(p, if p == UID then input.uid else input.name);
  }

  lemma ReadOrganizer(input: CalendarInput, lines: seq<Str>)
    requires !Refused(input) && PartsFit(input) && lines == Texts(Fields(input))
    ensures var found := AllNamed(lines, PropertyName(ORGANIZER));
      if input.organizer.Some? then found != [] && ReadPerson(found[0]) == Recovered(Organizer, input.organizer.value)
      else found == []
  {
    FieldsPrint(input);
    LookupFinds(Fields(input), ORGANIZER);
    FieldsWanted(input, ORGANIZER);
    if input.organizer.Some? {
      PersonRoundTrip(Organizer, input.organizer.value);
      SingleNamed(PersonField(Organizer, input.organizer.value), PropertyName(ORGANIZER));
    }
  }

  lemma ReadAttendees(input: CalendarInput, lines: seq<Str>)
    requires !Refused(input) && PartsFit(input) && lines == Texts(Fields(input))
    ensures ReadPeople(AllNamed(lines, PropertyName(ATTENDEE))) == RecoveredPeople(input.attendees)
  {
    FieldsPrint(input);
    LookupFinds(Fields(input), ATTENDEE);
    FieldsWanted(input, ATTENDEE);
    PeopleFound(input.attendees);
  }

  lemma HeadTexts(input: CalendarInput)
    requires !Refused(input)
    ensures TextEscape.ICalUnescape(TextEscape.ICalEscape(input.uid)) == input.uid
    ensures TextEscape.ICalUnescape(TextEscape.ICalEscape(input.name)) == Normalize(input.name)
    ensures TextEscape.ICalEscape(input.uid) == [] <==> input.uid == []
    ensures TextEscape.ICalEscape(input.name) == [] <==> input.name == []
  {
    TextFound(UID, input.uid);
    TextFound(SUMMARY, input.name);
    UidUnchanged(input);
  }

  lemma ReadTexts(input: CalendarInput, lines: seq<Str>)
    requires !Refused(input) && PartsFit(input) && lines == Texts(Fields(input))
    ensures FirstText(lines, DESCRIPTION) == Expected(input).content
    ensures FirstText(lines, LOCATION) == Expected(input).location
    ensures FirstValue(lines, URL) == Expected(input).url
  {
    ReadText(input, lines, DESCRIPTION);
    ReadText(input, lines, LOCATION);
    ReadUrl(input, lines);
  }

  /** The component's lines read back: everything, unless uid or name is empty. */
  lemma ReadBack(input: CalendarInput, lines: seq<Str>)
    requires !Refused(input) && PartsFit(input) && lines == Texts(Fields(input))
    ensures var r := ReadLines(input.task, lines);
      if input.uid != [] && input.name != [] then r == Ok(Expected(input)) else r.Err?
  {
    ReadHead(input, lines, UID);
    ReadHead(input, lines, SUMMARY);
    HeadTexts(input);
    ReadTexts(input, lines);
    ReadOrganizer(input, lines);
    ReadAttendees(input, lines);
  }

  // ---------- the object around the component ----------

  const TODO: Str := Begin(true)

  predicate Unbroken(s: Str) {
    forall i | 0 <= i < |s| :: !ICalText.IsTerminator(s[i])
  }

  lemma {:induction false} TestUnbroken(s: Str, word: Str, atStart: bool)
    requires Unbroken(s) && word != []
    ensures ICalText.HasLine(s, word, atStart, ICalText.IsTerminator) <==> atStart && s == word
    decreases |s|
  {
    if s != [] {
      TestUnbroken(s[1..], word, false);
    }
  }

  lemma UnbrokenLiteral(s: string)
    requires forall i | 0 <= i < |s| :: ' ' < s[i] < 128 as char || (s[i] == ' ' && i > 0)
    ensures Unbroken(L(s)) && OneLine(L(s)) && !LineFolding.StartsBlank(L(s))
  {
  }

  lemma MarkersFit(task: bool)
    ensures Unbroken(Begin(task)) && OneLine(Begin(task)) && !LineFolding.StartsBlank(Begin(task))
    ensures Unbroken(End(task)) && OneLine(End(task)) && !LineFolding.StartsBlank(End(task))
    ensures Begin(task)[0] == 'B' as int && End(task)[0] == 'E' as int
  {
    UnbrokenLiteral("BEGIN:VTODO");
    UnbrokenLiteral("BEGIN:VEVENT");
    UnbrokenLiteral("END:VTODO");
    UnbrokenLiteral("END:VEVENT");
  }

  predicate FitsOutside(line: Str) {
    Unbroken(line) && OneLine(line) && !LineFolding.StartsBlank(line)
    && !ICalText.EndsWith(line, Begin(true)) && !ICalText.EndsWith(line, Begin(false))
    && !(End(true) <= line)
  }

  lemma DifferentEnd(line: Str, suffix: Str)
    requires line != [] && suffix != [] && line[|line| - 1] != suffix[|suffix| - 1]
    ensures !ICalText.EndsWith(line, suffix)
  {
    if |suffix| <= |line| {
      assert line[|line| - |suffix|..][|suffix| - 1] == line[|line| - 1];
    }
  }

  lemma LiteralFits(s: string)
    requires forall i | 0 <= i < |s| :: ' ' < s[i] < 128 as char || (s[i] == ' ' && i > 0)
    requires |s| > 5 && s[|s| - 1] != 'T' && s[|s| - 1] != 'O' && s[5] != 'T'
    ensures FitsOutside(L(s))
  {
    UnbrokenLiteral(s);
    MarkersEnd();
    DifferentEnd(L(s), Begin(true));
    DifferentEnd(L(s), Begin(false));
    assert L(s)[5] != End(true)[5];
  }

  lemma MarkersEnd()
    ensures Begin(true)[|Begin(true)| - 1] == 'O' as int && Begin(false)[|Begin(false)| - 1] == 'T' as int
    ensures |End(true)| == 9 && End(true)[5] == 'T' as int && End(false)[5] == 'E' as int
  {
  }

  lemma HeaderFits()
    ensures forall i | 0 <= i < |Header()| :: FitsOutside(Header()[i])
    ensures FitsOutside(L("END:VCALENDAR"))
  {
    FrameFits();
    VersionFits();
    ProductFits();
  }

  lemma FrameFits()
    ensures FitsOutside(L("BEGIN:VCALENDAR")) && FitsOutside(L("END:VCALENDAR"))
  {
    FrameEndFits();
    LiteralFits("BEGIN:VCALENDAR");
  }

  lemma FrameEndFits()
    ensures FitsOutside(L("END:VCALENDAR"))
  {
    LiteralFits("END:VCALENDAR");
  }

  lemma VersionFits()
    ensures FitsOutside(L("VERSION:2.0")) && FitsOutside(L("CALSCALE:GREGORIAN"))
  {
    VersionLineFits();
    ScaleFits();
  }

  lemma VersionLineFits()
    ensures FitsOutside(L("VERSION:2.0"))
  {
    LiteralFits("VERSION:2.0");
  }

  lemma ScaleFits()
    ensures FitsOutside(L("CALSCALE:GREGORIAN"))
  {
    LiteralFits("CALSCALE:GREGORIAN");
  }

  lemma ProductFits()
    ensures FitsOutside(L("PRODID:-//Sockethub//CalDAV Platform//EN"))
  {
    LiteralFits("PRODID:-//Sockethub//CalDAV Platform//EN");
  }

  lemma ZoneFits(line: Str)
    requires ZoneLine(line)
    ensures FitsOutside(line)
  {
    forall i | 0 <= i < |line| ensures !ICalText.IsTerminator(line[i]) {
      assert line[i] in line;
    }
  }

  lemma OutsideTestsFalse(line: Str)
    requires FitsOutside(line)
    ensures !ICalText.TestLine(line, TODO)
  {
    MarkersFit(true);
    TestUnbroken(line, TODO, true);
    assert ICalText.EndsWith(TODO, TODO) by { assert TODO[0..] == TODO; }
  }

  lemma FieldFits(text: Str, p: Property)
    requires Prints(text, p)
    ensures !LineFolding.StartsBlank(text)
    ensures forall task :: !(End(task) <= text)
    ensures !(END_ALARM <= text)
  {
    NameIsWord(p);
    assert text[0] == PropertyName(p)[0];
    MarkersFit(true);
    MarkersFit(false);
    assert END_ALARM[0] == 'E' as int;
  }

  lemma SomeTestsConcat(a: seq<Str>, b: seq<Str>, word: Str)
    ensures ICalText.SomeTests(a + b, word) <==> ICalText.SomeTests(a, word) || ICalText.SomeTests(b, word)
  {
    if ICalText.SomeTests(a, word) {
      var i :| 0 <= i < |a| && ICalText.TestLine(a[i], word);
      assert ICalText.TestLine((a + b)[i], word);
    }
    if ICalText.SomeTests(b, word) {
      var i :| 0 <= i < |b| && ICalText.TestLine(b[i], word);
      assert ICalText.TestLine((a + b)[|a| + i], word);
    }
  }

  lemma SomeTestsOne(line: Str, word: Str)
    ensures ICalText.SomeTests([line], word) <==> ICalText.TestLine(line, word)
  {
    if ICalText.TestLine(line, word) {
      assert ICalText.TestLine([line][0], word);
    }
  }

  function Before(input: CalendarInput): seq<Str> {
    Header() + input.zone
  }

  lemma BeforeFits(input: CalendarInput)
    requires PartsFit(input)
    ensures forall i | 0 <= i < |Before(input)| :: FitsOutside(Before(input)[i])
    ensures Before(input) != [] && !ICalText.SomeTests(Before(input), TODO)
  {
    HeaderFits();
    var lines := Before(input);
    forall i | 0 <= i < |lines| ensures FitsOutside(lines[i]) && !ICalText.TestLine(lines[i], TODO) {
      if i >= |Header()| { ZoneFits(input.zone[i - |Header()|]); }
      OutsideTestsFalse(lines[i]);
    }
  }

  /** Some line of the component contains a separator-delimited BEGIN:VTODO. */
  predicate Disguises(input: CalendarInput)
    requires !Refused(input)
  {
    ICalText.SomeTests(Texts(Fields(input)), TODO)
  }

  /** The parser takes the object for a task when it is one, or when it is disguised as one. */
  lemma TakenForTask(input: CalendarInput)
    requires !Refused(input) && PartsFit(input)
    ensures ICalText.SomeTests(ObjectLines(input), TODO) <==> input.task || Disguises(input)
  {
    var texts := Texts(Fields(input));
    var begin, end, last := [Begin(input.task)], [End(input.task)], [L("END:VCALENDAR")];
    BeforeFits(input);
    SomeTestsConcat(Before(input), begin + (texts + (end + last)), TODO);
    SomeTestsConcat(begin, texts + (end + last), TODO);
    SomeTestsConcat(texts, end + last, TODO);
    SomeTestsConcat(end, last, TODO);
    SomeTestsOne(Begin(input.task), TODO);
    SomeTestsOne(End(input.task), TODO);
    SomeTestsOne(L("END:VCALENDAR"), TODO);
    HeaderFits();
    OutsideTestsFalse(L("END:VCALENDAR"));
    MarkersFit(true);
    MarkersFit(input.task);
    TestUnbroken(Begin(input.task), TODO, true);
    TestUnbroken(End(input.task), TODO, true);
    assert |Begin(true)| != |Begin(false)|;
  }

  lemma ComponentFits(input: CalendarInput, texts: seq<Str>)
    requires !Refused(input) && PartsFit(input) && texts == Texts(Fields(input))
    ensures texts != [] && AllOneLine(texts)
    ensures forall i | 0 <= i < |texts| :: !LineFolding.StartsBlank(texts[i]) && !(END_ALARM <= texts[i])
    ensures forall i, task | 0 <= i < |texts| :: !(End(task) <= texts[i])
  {
    FieldsPrint(input);
    forall i | 0 <= i < |texts|
      ensures OneLine(texts[i]) && !LineFolding.StartsBlank(texts[i]) && !(END_ALARM <= texts[i])
      ensures forall task :: !(End(task) <= texts[i])
    {
      FieldFits(texts[i], Fields(input)[i].property);
    }
  }

  lemma LinesFit(input: CalendarInput)
    requires !Refused(input) && PartsFit(input)
    ensures AllOneLine(ObjectLines(input))
    ensures forall i | 0 <= i < |ObjectLines(input)| :: !LineFolding.StartsBlank(ObjectLines(input)[i])
  {
    var texts := Texts(Fields(input));
    PartsFlush(input);
    MarkersFlush(input.task);
    FlushConcat(texts, [End(input.task)] + [L("END:VCALENDAR")]);
    FlushConcat([Begin(input.task)], texts + ([End(input.task)] + [L("END:VCALENDAR")]));
    FlushConcat(Before(input), [Begin(input.task)] + (texts + ([End(input.task)] + [L("END:VCALENDAR")])));
  }

  lemma PartsFlush(input: CalendarInput)
    requires !Refused(input) && PartsFit(input)
    ensures AllFlush(Before(input)) && AllFlush(Texts(Fields(input)))
  {
    BeforeFits(input);
    ComponentFits(input, Texts(Fields(input)));
  }

  lemma MarkersFlush(task: bool)
    ensures AllFlush([Begin(task)]) && AllFlush([End(task)] + [L("END:VCALENDAR")])
  {
    MarkersFit(task);
    FrameEndFits();
  }

  /** Single lines that start without a blank. */
  predicate AllFlush(lines: seq<Str>) {
    forall i | 0 <= i < |lines| :: OneLine(lines[i]) && !LineFolding.StartsBlank(lines[i])
  }

  lemma FlushConcat(a: seq<Str>, b: seq<Str>)
    requires AllFlush(a) && AllFlush(b)
    ensures AllFlush(a + b)
  {
  }

  /** Unfolding a printed object gives its lines, each ended by CRLF. */
  lemma Unfolded(input: CalendarInput)
    requires !Refused(input) && PartsFit(input)
    ensures LineFolding.ICalUnfold(LineFolding.ICalBody(ObjectLines(input))) == ICalText.Ended(ObjectLines(input))
    ensures ICalText.TestLine(ICalText.Ended(ObjectLines(input)), TODO) <==> input.task || Disguises(input)
  {
    LinesFit(input);
    LineFolding.ICalUnfoldInvertsFold(ObjectLines(input));
    ICalText.EndedIsJoin(ObjectLines(input));
    MarkersFit(true);
    ICalText.TestLines(ObjectLines(input), TODO);
    TakenForTask(input);
  }

  lemma OwnSection(input: CalendarInput)
    requires !Refused(input) && PartsFit(input)
    ensures ICalText.Section(ICalText.Ended(ObjectLines(input)), Begin(input.task), End(input.task))
         == Some(Join(Texts(Fields(input)), CRLF))
  {
    var texts := Texts(Fields(input));
    BeforeFits(input);
    ComponentFits(input, texts);
    MarkersFit(input.task);
    ICalText.SectionOfLines(Before(input), Begin(input.task), texts, End(input.task), [L("END:VCALENDAR")]);
  }

  // An event contains no line that starts with END:VTODO, so a disguised one has no section at all.
  lemma NoTaskSection(input: CalendarInput)
    requires !Refused(input) && PartsFit(input) && !input.task
    ensures ICalText.Section(ICalText.Ended(ObjectLines(input)), Begin(true), End(true)).None?
  {
    LinesFit(input);
    MarkersFit(true);
    var lines := ObjectLines(input);
    forall i | 0 <= i < |lines| ensures !(End(true) <= lines[i]) {
      NoEndOfTask(input, i);
    }
    ICalText.NeverCloses(lines, End(true));
    ICalText.NoSectionWithoutClose(ICalText.Ended(lines), Begin(true), End(true));
  }

  lemma NoEndOfTask(input: CalendarInput, i: nat)
    requires !Refused(input) && PartsFit(input) && !input.task && i < |ObjectLines(input)|
    ensures !(End(true) <= ObjectLines(input)[i])
  {
    var texts := Texts(Fields(input));
    var k, n := |Before(input)|, |texts|;
    var line := ObjectLines(input)[i];
    ComponentFits(input, texts);
    MarkersFit(true);
    MarkersFit(false);
    if i < k {
      BeforeFits(input);
      assert line == Before(input)[i];
    } else if i == k {
      assert line == Begin(false);
    } else if i <= k + n {
      assert line == texts[i - k - 1];
    } else if i == k + n + 1 {
      assert line == End(false) && End(true)[5] != End(false)[5];
    } else {
      HeaderFits();
      assert line == L("END:VCALENDAR");
    }
  }

  // ---------- the round trip ----------

  /** Inputs whose printed object the parser can read back. */
  predicate Survives(input: CalendarInput)
    requires !Refused(input)
  {
    input.uid != [] && input.name != [] && (input.task || !Disguises(input))
  }

  lemma ReadSection(input: CalendarInput)
    requires !Refused(input) && PartsFit(input)
    requires input.task || !Disguises(input)
    ensures Reading(LineFolding.ICalBody(ObjectLines(input))) == ReadLines(input.task, Texts(Fields(input)))
  {
    var texts := Texts(Fields(input));
    Unfolded(input);
    OwnSection(input);
    ComponentFits(input, texts);
    assert Join(texts, CRLF) != [] by {
      FieldsPrint(input);
      assert Prints(Fields(input)[0].text, Fields(input)[0].property);
    }
    AlarmEnd();
    NeverRemoved(texts, BEGIN_ALARM, END_ALARM);
    ICalText.SplitInvertsJoin(texts);
  }

  lemma AlarmEnd()
    ensures OneLine(END_ALARM) && END_ALARM != []
  {
    UnbrokenLiteral("END:VALARM");
  }

  lemma NeverRemoved(texts: seq<Str>, open: Str, close: Str)
    requires texts != [] && AllOneLine(texts) && OneLine(close) && close != []
    requires forall i | 0 <= i < |texts| :: !(close <= texts[i])
    ensures ICalText.RemoveSections(Join(texts, CRLF), open, close) == Join(texts, CRLF)
  {
    ICalText.NeverCloses(texts, close);
    ICalText.EndedIsJoin(texts);
    ICalText.NoCloseBefore(Join(texts, CRLF), CRLF, close);
    ICalText.NoSectionWithoutClose(Join(texts, CRLF), open, close);
  }

  /**
   Printing refuses exactly the inputs with an unsafe uid or a line break in a
   raw value. Everything printed is read back as it was (line endings in text
   becoming LF), except an object without uid or name, and an event in which some
   line holds BEGIN:VTODO between line or paragraph separators: the m flag makes
   those line ends, so the parser takes the event for a task and finds none.
   */
  lemma CalendarRoundTrip(input: CalendarInput)
    requires PartsFit(input)
    ensures Printing(input).Ok? <==> !Refused(input)
    ensures !Refused(input) ==>
      var r := Reading(Printing(input).value);
      if Survives(input) then r == Ok(Expected(input)) else r.Err?
  {
    if !Refused(input) {
      if input.task || !Disguises(input) {
        ReadSection(input);
        ReadBack(input, Texts(Fields(input)));
      } else {
        Unfolded(input);
        NoTaskSection(input);
      }
    }
  }

  // ---------- which texts disguise an event ----------

  /** BEGIN:VTODO right after a line or paragraph separator, and alone up to the next one or the end. */
  predicate Disguised(text: Str) {
    ICalText.HasLine(text, TODO, false, ICalText.IsSeparator)
  }

  // Units that escaping leaves alone and that do not separate lines.
  predicate Literally(word: Str) {
    forall i | 0 <= i < |word| :: TextEscape.EscapeUnit(word[i]) == [word[i]] && !ICalText.IsSeparator(word[i])
  }

  lemma {:induction false} WordInEscaped(text: Str, word: Str)
    requires Literally(word)
    ensures ICalText.WordThenEnd(TextEscape.Escaped(text), word, ICalText.IsSeparator)
       <==> ICalText.WordThenEnd(text, word, ICalText.IsSeparator)
    decreases |word|
  {
    var e := TextEscape.Escaped(text);
    if word != [] && text != [] && text[0] == word[0] {
      assert !StartsWithCrlf(text);
      assert e == [text[0]] + TextEscape.Escaped(text[1..]);
      WordInEscaped(text[1..], word[1..]);
      WordStep(text, word);
      WordStep(e, word);
    } else if text != [] {
      assert word != [] ==> e[0] != word[0];
      assert ICalText.IsSeparator(e[0]) <==> ICalText.IsSeparator(text[0]);
    }
  }

  lemma WordStep(s: Str, word: Str)
    requires s != [] && word != [] && s[0] == word[0]
    ensures ICalText.WordThenEnd(s, word, ICalText.IsSeparator)
       <==> ICalText.WordThenEnd(s[1..], word[1..], ICalText.IsSeparator)
  {
    HeadAndTail(word);
    HeadAndTail(s);
  }

  lemma HasLineStep(s: Str, word: Str, atStart: bool)
    requires s != []
    ensures ICalText.HasLine(s, word, atStart, ICalText.IsSeparator)
       <==> ((atStart && ICalText.WordThenEnd(s, word, ICalText.IsSeparator))
            || ICalText.HasLine(s[1..], word, ICalText.IsSeparator(s[0]), ICalText.IsSeparator))
  {
  }

  /** The head of an encoded unit decides nothing but whether what follows starts a line. */
  lemma HeadSkipped(head: Str, rest: Str, word: Str, atStart: bool)
    requires |head| == 1 || (|head| == 2 && !ICalText.IsSeparator(head[0]) && !ICalText.IsSeparator(head[1]))
    ensures ICalText.HasLine(head + rest, word, atStart, ICalText.IsSeparator)
       <==> ((atStart && ICalText.WordThenEnd(head + rest, word, ICalText.IsSeparator))
            || ICalText.HasLine(rest, word, |head| == 1 && ICalText.IsSeparator(head[0]), ICalText.IsSeparator))
  {
    var s := head + rest;
    HasLineStep(s, word, atStart);
    if |head| == 1 {
      assert s[1..] == rest;
    } else {
      assert s[1..] == [head[1]] + rest && s[1..][1..] == rest;
      HasLineStep(s[1..], word, false);
    }
  }

  lemma {:induction false} LinesInEscaped(text: Str, word: Str, atStart: bool)
    requires Literally(word) && word != []
    ensures ICalText.HasLine(TextEscape.Escaped(text), word, atStart, ICalText.IsSeparator)
       <==> ICalText.HasLine(text, word, atStart, ICalText.IsSeparator)
    decreases |text|
  {
    WordInEscaped(text, word);
    if text != [] {
      var crlf := StartsWithCrlf(text);
      var head := if crlf then [BACKSLASH, LOWER_N] else TextEscape.EscapeUnit(text[0]);
      var rest := TextEscape.Escaped(text[if crlf then 2 else 1..]);
      assert TextEscape.Escaped(text) == head + rest;
      LinesInEscaped(text[if crlf then 2 else 1..], word, !crlf && ICalText.IsSeparator(text[0]));
      HeadSkipped(head, rest, word, atStart);
      HasLineStep(text, word, atStart);
      if crlf {
        assert text[1..][1..] == text[2..];
        HasLineStep(text[1..], word, false);
      }
    }
  }

  lemma {:induction false} SeparatorsOnly(line: Str, word: Str, atStart: bool)
    requires OneLine(line)
    ensures ICalText.HasLine(line, word, atStart, ICalText.IsTerminator)
       <==> ICalText.HasLine(line, word, atStart, ICalText.IsSeparator)
    decreases |line|
  {
    assert forall i | 0 <= i < |line| :: line[i] in line;
    if line != [] {
      SeparatorsOnly(line[1..], word, ICalText.IsSeparator(line[0]));
    }
  }

  lemma {:induction false} LinesAfterPrefix(prefix: Str, rest: Str, word: Str, atStart: bool)
    requires prefix != [] && Unbroken(prefix)
    requires atStart ==> !(word <= prefix + rest)
    ensures ICalText.HasLine(prefix + rest, word, atStart, ICalText.IsSeparator)
       <==> ICalText.HasLine(rest, word, false, ICalText.IsSeparator)
    decreases |prefix|
  {
    TailOfConcat(prefix, rest);
    HasLineStep(prefix + rest, word, atStart);
    assert !ICalText.IsTerminator(prefix[0]);
    if |prefix| == 1 {
      assert prefix[1..] + rest == rest;
    } else {
      LinesAfterPrefix(prefix[1..], rest, word, false);
    }
  }

  lemma WordUnbroken(name: Str)
    requires PlainWord(name)
    ensures Unbroken(name + [COLON])
  {
  }

  lemma TodoIsLiteral()
    ensures Literally(TODO) && TODO != [] && TODO[0] == 'B' as int
  {
  }

  /** A text field disguises its event exactly when its text does. */
  lemma FieldDisguised(p: Property, text: Str)
    ensures ICalText.TestLine(Field(p, TextEscape.ICalEscape(text)).text, TODO) <==> Disguised(text)
  {
    var prefix := PropertyName(p) + [COLON];
    var value := TextEscape.ICalEscape(text);
    TextEscape.ICalEscapeIsOnePass(text);
    FieldPrints(p, value);
    NameIsWord(p);
    WordUnbroken(PropertyName(p));
    TodoIsLiteral();
    assert (prefix + value)[0] == PropertyName(p)[0];
    SeparatorsOnly(prefix + value, TODO, true);
    LinesAfterPrefix(prefix, value, TODO, true);
    LinesInEscaped(text, TODO, false);
  }

  /** A title that prints as an event and cannot be read back. */
  lemma DisguisedTitle(input: CalendarInput)
    requires PartsFit(input) && !Refused(input) && !input.task
    requires input.name == [LINE_SEPARATOR] + TODO
    ensures Printing(input).Ok? && Reading(Printing(input).value).Err?
  {
    assert input.name[1..] == TODO;
    assert ICalText.WordThenEnd(TODO, TODO, ICalText.IsSeparator);
    HasLineStep(input.name, TODO, false);
    TodoIsLiteral();
    HasLineStep(TODO, TODO, true);
    FieldDisguised(SUMMARY, input.name);
    var texts := Texts(Fields(input));
    assert texts[2] == HeadFields(input)[2].text;
    assert ICalText.TestLine(texts[2], TODO);
    CalendarRoundTrip(input);
  }
}
