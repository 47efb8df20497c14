/**
 Which texts make the parser take a printed event for a task: the condition of
 the calendar round trip in terms of the event's own fields.
 */
module ICalDisguise {
  import opened JsString
  import opened Results
  import opened QuotedScan
  import opened ICalLine
  import opened ICalObject
  import opened ICalRoundTrip
  import ICalText

  /** A display name is followed by its closing quote, so the word must end before the name does. */
  predicate DisguisedName(name: Str) {
    ICalText.HasLine(name + [DQUOTE], TODO, false, ICalText.IsSeparator)
  }

  predicate DisguisedPerson(person: Person) {
    Disguised(person.email) || (person.name.Some? && DisguisedName(person.name.value))
  }

  predicate DisguisedOption(text: Option<Str>) {
    text.Some? && Disguised(text.value)
  }

  // ---------- a word on one side of a unit ----------

  lemma WordBefore(a: Str, q: Unit, b: Str, word: Str)
    requires q !in word && !ICalText.IsSeparator(q)
    ensures ICalText.WordThenEnd(a + ([q] + b), word, ICalText.IsSeparator)
       <==> ICalText.WordThenEnd(a + [q], word, ICalText.IsSeparator)
  {
    var long, short := a + ([q] + b), a + [q];
    assert long == short + b;
    if |word| <= |a| {
      assert word <= long <==> word <= short by { assert long[..|word|] == short[..|word|]; }
      assert long[|word|] == short[|word|];
    } else {
      if word <= long { UnitInside(long, |a|, word); }
      if word <= short { UnitInside(short, |a|, word); }
    }
  }

  lemma UnitInside(s: Str, i: nat, word: Str)
    requires i < |word| && word <= s
    ensures s[i] in word
  {
    assert word[i] == s[i];
  }

  /** A line of the text lies before the unit or after it. */
  lemma {:induction false} AroundUnit(a: Str, q: Unit, b: Str, word: Str, atStart: bool)
    requires q !in word && word != [] && !ICalText.IsSeparator(q)
    ensures ICalText.HasLine(a + ([q] + b), word, atStart, ICalText.IsSeparator)
       <==> (ICalText.HasLine(a + [q], word, atStart, ICalText.IsSeparator)
             || ICalText.HasLine(b, word, false, ICalText.IsSeparator))
    decreases |a|
  {
    var long, short := a + ([q] + b), a + [q];
    WordBefore(a, q, b, word);
    HasLineStep(long, word, atStart);
    HasLineStep(short, word, atStart);
    if a == [] {
      assert long[1..] == b && short[1..] == [];
      assert word[0] in word;
    } else {
      TailOfConcat(a, [q] + b);
      TailOfConcat(a, [q]);
      AroundUnit(a[1..], q, b, word, ICalText.IsSeparator(a[0]));
    }
  }

  // ---------- encoded names ----------

  // Units that caret encoding leaves alone and that do not separate lines.
  predicate CaretLiteral(word: Str) {
    forall i | 0 <= i < |word| :: CaretUnit(word[i]) == [word[i]] && !ICalText.IsSeparator(word[i])
  }

  lemma {:induction false} WordInCareted(name: Str, word: Str)
    requires CaretLiteral(word)
    ensures ICalText.WordThenEnd(Careted(name) + [DQUOTE], word, ICalText.IsSeparator)
       <==> ICalText.WordThenEnd(name + [DQUOTE], word, ICalText.IsSeparator)
    decreases |word|
  {
    var e, s := Careted(name) + [DQUOTE], name + [DQUOTE];
    if word != [] && name != [] && name[0] == word[0] {
      assert !StartsWithCrlf(name);
      assert Careted(name) == [name[0]] + Careted(name[1..]);
      assert e == [name[0]] + (Careted(name[1..]) + [DQUOTE]);
      TailOfConcat(name, [DQUOTE]);
      WordInCareted(name[1..], word[1..]);
      WordStep(s, word);
      WordStep(e, word);
    } else if name != [] {
      assert e[0] == Careted(name)[0] && s[0] == name[0];
      assert word != [] ==> e[0] != word[0];
      assert ICalText.IsSeparator(e[0]) <==> ICalText.IsSeparator(s[0]);
    } else {
      assert e == s;
    }
  }

  lemma {:induction false} LinesInCareted(name: Str, word: Str, atStart: bool)
    requires CaretLiteral(word) && word != []
    ensures ICalText.HasLine(Careted(name) + [DQUOTE], word, atStart, ICalText.IsSeparator)
       <==> ICalText.HasLine(name + [DQUOTE], word, atStart, ICalText.IsSeparator)
    decreases |name|
  {
    WordInCareted(name, word);
    if name == [] {
      assert Careted(name) + [DQUOTE] == name + [DQUOTE];
    } else {
      var crlf := StartsWithCrlf(name);
      var n := if crlf then 2 else 1;
      var head := if crlf then [CARET, LOWER_N] else CaretUnit(name[0]);
      var rest := Careted(name[n..]) + [DQUOTE];
      assert Careted(name) + [DQUOTE] == head + rest;
      LinesInCareted(name[n..], word, !crlf && ICalText.IsSeparator(name[0]));
      HeadSkipped(head, rest, word, atStart);
      HasLineStep(name + [DQUOTE], word, atStart);
      TailOfConcat(name, [DQUOTE]);
      if crlf {
        SecondSkipped(name, word);
      }
    }
  }

  lemma SecondSkipped(name: Str, word: Str)
    requires StartsWithCrlf(name)
    ensures ICalText.HasLine(name[1..] + [DQUOTE], word, false, ICalText.IsSeparator)
       <==> ICalText.HasLine(name[2..] + [DQUOTE], word, false, ICalText.IsSeparator)
  {
    var s := name[1..] + [DQUOTE];
    assert s[0] == LF && s[1..] == name[2..] + [DQUOTE];
    HasLineStep(s, word, false);
  }

  // ---------- people ----------

  lemma TodoIsCaretLiteral()
    ensures CaretLiteral(TODO) && TODO != [] && DQUOTE !in TODO
  {
  }

  lemma UnbrokenConcat(a: Str, b: Str)
    requires Unbroken(a) && Unbroken(b)
    ensures Unbroken(a + b)
  {
  }

  lemma {:induction false} JoinUnbroken(parts: seq<Str>)
    requires forall i | 0 <= i < |parts| :: Unbroken(parts[i])
    ensures Unbroken(Join(parts, [SEMICOLON]))
  {
    if |parts| > 1 {
      JoinUnbroken(parts[1..]);
      UnbrokenConcat(parts[0], [SEMICOLON]);
      UnbrokenConcat(parts[0] + [SEMICOLON], Join(parts[1..], [SEMICOLON]));
    }
  }

  lemma PlainPairUnbroken(key: Str, value: Str)
    requires PlainWord(key) && PlainWord(value)
    ensures Unbroken(Pair(key, value))
  {
  }

  /** The parameters after the display name. */
  function OtherParams(kind: PersonKind, person: Person): seq<Str> {
    if kind == Attendee then RoleParams(person) + StatusParams(person) + RsvpParams(person) else []
  }

  lemma OtherParamsUnbroken(kind: PersonKind, person: Person)
    ensures forall i | 0 <= i < |OtherParams(kind, person)| :: Unbroken(OtherParams(kind, person)[i])
  {
    if person.role.Some? {
      RoleTexts(person.role.value);
      PlainPairUnbroken(L("ROLE"), Upper(RoleText(person.role.value)));
    }
    if person.status.Some? {
      StatusTexts(person.status.value);
      PlainPairUnbroken(L("PARTSTAT"), Upper(StatusText(person.status.value)));
    }
    if person.rsvp.Some? {
      PlainPairUnbroken(L("RSVP"), if person.rsvp.value then L("TRUE") else L("FALSE"));
    }
  }

  /** A printed line whose head holds no separator is disguised by its value alone. */
  lemma PlainHead(head: Str, email: Str)
    requires head != [] && Unbroken(head) && head[0] != TODO[0] && OneLine(head) && OneLine(email)
    ensures ICalText.TestLine(head + email, TODO) <==> Disguised(email)
  {
    HeadOfLine(head, email);
    LinesAfterPrefix(head, email, TODO, true);
  }

  lemma HeadOfLine(head: Str, rest: Str)
    requires head != [] && head[0] != TODO[0] && OneLine(head + rest)
    ensures ICalText.TestLine(head + rest, TODO) <==> ICalText.HasLine(head + rest, TODO, true, ICalText.IsSeparator)
    ensures !(TODO <= head + rest)
  {
    TodoIsCaretLiteral();
    SeparatorsOnly(head + rest, TODO, true);
    assert (head + rest)[0] == head[0];
  }

  /** A quoted name in the middle: the line is disguised by the name or by the address. */
  lemma QuotedName(front: Str, name: Str, back: Str, email: Str)
    requires front != [] && Unbroken(front) && front[0] != TODO[0] && back != [] && Unbroken(back)
    requires OneLine(front + (Careted(name) + ([DQUOTE] + (back + email))))
    ensures ICalText.TestLine(front + (Careted(name) + ([DQUOTE] + (back + email))), TODO)
       <==> DisguisedName(name) || Disguised(email)
  {
    TodoIsCaretLiteral();
    HeadOfLine(front, Careted(name) + ([DQUOTE] + (back + email)));
    LinesAfterPrefix(front, Careted(name) + ([DQUOTE] + (back + email)), TODO, true);
    AroundUnit(Careted(name), DQUOTE, back + email, TODO, false);
    LinesInCareted(name, TODO, false);
    LinesAfterPrefix(back, email, TODO, false);
  }

  /** A name that is printed without quotes has no separator in it, so it disguises nothing. */
  lemma UnquotedName(name: Str)
    requires !NeedsQuotes(Careted(name))
    ensures Unbroken(Careted(name)) && !DisguisedName(name)
  {
    TodoIsCaretLiteral();
    assert forall i | 0 <= i < |Careted(name)| :: Careted(name)[i] in Careted(name);
    assert Unbroken(Careted(name) + [DQUOTE]);
    TestUnbrokenSeparators(Careted(name) + [DQUOTE]);
    LinesInCareted(name, TODO, false);
  }

  lemma {:induction false} TestUnbrokenSeparators(s: Str)
    requires Unbroken(s)
    ensures !ICalText.HasLine(s, TODO, false, ICalText.IsSeparator)
  {
    if s != [] {
      assert !ICalText.IsTerminator(s[0]);
      TestUnbrokenSeparators(s[1..]);
    }
  }

  lemma KindIsPlain(kind: PersonKind)
    ensures Unbroken(KindName(kind)) && KindName(kind) != [] && KindName(kind)[0] != TODO[0]
    ensures Unbroken(L("CN")) && Unbroken(L("mailto:"))
  {
  }

  /** Everything after the display name up to the address. */
  function Back(kind: PersonKind, person: Person): Str {
    var others := OtherParams(kind, person);
    (if others == [] then [] else [SEMICOLON] + Join(others, [SEMICOLON])) + ([COLON] + L("mailto:"))
  }

  lemma BackUnbroken(kind: PersonKind, person: Person)
    ensures Unbroken(Back(kind, person)) && Back(kind, person) != []
  {
    var others := OtherParams(kind, person);
    OtherParamsUnbroken(kind, person);
    JoinUnbroken(others);
    KindIsPlain(kind);
    UnbrokenConcat([SEMICOLON], Join(others, [SEMICOLON]));
    UnbrokenConcat([COLON], L("mailto:"));
    UnbrokenConcat(if others == [] then [] else [SEMICOLON] + Join(others, [SEMICOLON]), [COLON] + L("mailto:"));
  }

  /** How a person's line is put together around the encoded name. */
  lemma PersonLineParts(kind: PersonKind, person: Person)
    requires OneLine(person.email)
    ensures PersonLine(kind, person).value ==
      if NameParams(person) == [] then KindName(kind) + (Back(kind, person) + person.email)
      else KindName(kind) + ([SEMICOLON] + NameParams(person)[0] + (Back(kind, person) + person.email))
  {
    var k, others := KindName(kind), OtherParams(kind, person);
    var tail: Str := if others == [] then [] else [SEMICOLON] + Join(others, [SEMICOLON]);
    assert PersonParams(kind, person) == NameParams(person) + others;
    if NameParams(person) == [] {
      HeadJoined(k, others);
      assert [k] + others == [k] + PersonParams(kind, person);
      ValueAppended(k + tail, tail, k, person.email);
    } else {
      var cn := NameParams(person)[0];
      assert [k] + PersonParams(kind, person) == [k] + ([cn] + others);
      HeadJoined(k, [cn] + others);
      HeadJoined(cn, others);
      assert [k] + ([cn] + others) != [];
      assert k + ([SEMICOLON] + (cn + tail)) == (k + ([SEMICOLON] + cn)) + tail;
      ValueAppended((k + ([SEMICOLON] + cn)) + tail, tail, k + ([SEMICOLON] + cn), person.email);
      ConcatAssociates(k, [SEMICOLON] + cn, Back(kind, person) + person.email);
    }
  }

  lemma HeadJoined(first: Str, others: seq<Str>)
    ensures Join([first] + others, [SEMICOLON]) ==
      first + if others == [] then [] else [SEMICOLON] + Join(others, [SEMICOLON])
  {
    assert ([first] + others)[1..] == others;
    if others == [] {
      assert first + [] == first;
    } else {
      ConcatAssociates(first, [SEMICOLON], Join(others, [SEMICOLON]));
    }
  }

  lemma ValueAppended(head: Str, tail: Str, front: Str, email: Str)
    requires head == front + tail
    ensures head + [COLON] + (L("mailto:") + email) == front + ((tail + ([COLON] + L("mailto:"))) + email)
  {
    var colon, mailto: Str := [COLON], L("mailto:");
    ConcatAssociates(colon, mailto, email);
    ConcatAssociates(head, colon, mailto + email);
    ConcatAssociates(tail, colon + mailto, email);
    ConcatAssociates(front, tail, (colon + mailto) + email);
  }

  /** A person's line is taken for a task line exactly when the name or the address disguises it. */
  lemma PersonDisguised(kind: PersonKind, person: Person)
    requires OneLine(person.email)
    ensures ICalText.TestLine(PersonLine(kind, person).value, TODO) <==> DisguisedPerson(person)
  {
    var line := PersonLine(kind, person).value;
    PersonLineParts(kind, person);
    if NameParams(person) == [] {
      UnnamedDisguised(kind, person, line);
    } else {
      PersonOneLine(kind, person);
      NamedDisguised(kind, person, line);
    }
  }

  lemma PersonOneLine(kind: PersonKind, person: Person)
    requires OneLine(person.email)
    ensures OneLine(PersonLine(kind, person).value)
  {
    PersonPrints(kind, person);
  }

  lemma UnnamedDisguised(kind: PersonKind, person: Person, line: Str)
    requires OneLine(person.email) && NameParams(person) == []
    requires line == KindName(kind) + (Back(kind, person) + person.email)
    ensures ICalText.TestLine(line, TODO) <==> DisguisedPerson(person)
  {
    KindIsPlain(kind);
    BackUnbroken(kind, person);
    PlainPerson(KindName(kind), Back(kind, person), person.email);
    EmptyNameHidesNothing();
  }

  lemma EmptyNameHidesNothing()
    ensures !DisguisedName([])
  {
    assert [] + [DQUOTE] == [DQUOTE];
    TestUnbrokenSeparators([DQUOTE]);
  }

  lemma PlainPerson(front: Str, back: Str, email: Str)
    requires Unbroken(front) && front != [] && front[0] != TODO[0] && Unbroken(back) && OneLine(email)
    ensures ICalText.TestLine(front + (back + email), TODO) <==> Disguised(email)
  {
    UnbrokenConcat(front, back);
    ConcatAssociates(front, back, email);
    UnbrokenOneLine(front + back);
    PlainHead(front + back, email);
  }

  lemma UnbrokenOneLine(s: Str)
    requires Unbroken(s)
    ensures OneLine(s)
  {
  }

  lemma NamedDisguised(kind: PersonKind, person: Person, line: Str)
    requires OneLine(person.email) && NameParams(person) != [] && OneLine(line)
    requires line == KindName(kind) + ([SEMICOLON] + NameParams(person)[0] + (Back(kind, person) + person.email))
    ensures ICalText.TestLine(line, TODO) <==> DisguisedPerson(person)
  {
    var front := KindName(kind) + ([SEMICOLON] + (L("CN") + [EQUALS]));
    KindIsPlain(kind);
    BackUnbroken(kind, person);
    UnbrokenConcat(L("CN"), [EQUALS]);
    UnbrokenConcat([SEMICOLON], L("CN") + [EQUALS]);
    UnbrokenConcat(KindName(kind), [SEMICOLON] + (L("CN") + [EQUALS]));
    FrontOfName(KindName(kind), L("CN") + [EQUALS], EncodeParameter(person.name.value),
                Back(kind, person) + person.email);
    AroundName(front, person.name.value, Back(kind, person), person.email);
  }

  lemma AroundName(front: Str, name: Str, back: Str, email: Str)
    requires Unbroken(front) && front != [] && front[0] != TODO[0] && back != [] && Unbroken(back) && OneLine(email)
    requires OneLine(front + (EncodeParameter(name) + (back + email)))
    ensures ICalText.TestLine(front + (EncodeParameter(name) + (back + email)), TODO)
      <==> DisguisedName(name) || Disguised(email)
  {
    CaretEncodeIsOnePass(name);
    if NeedsQuotes(Careted(name)) {
      UnbrokenConcat(front, [DQUOTE]);
      QuotedApart(front, Careted(name), back + email);
      QuotedName(front + [DQUOTE], name, back, email);
    } else {
      UnquotedName(name);
      UnbrokenConcat(front, Careted(name));
      ConcatAssociates(front, Careted(name), back + email);
      PlainPerson(front + Careted(name), back, email);
    }
  }

  lemma FrontOfName(k: Str, cn: Str, encoded: Str, rest: Str)
    ensures k + ([SEMICOLON] + (cn + encoded) + rest) == (k + ([SEMICOLON] + cn)) + (encoded + rest)
  {
    ConcatAssociates([SEMICOLON], cn, encoded);
    ConcatAssociates([SEMICOLON] + cn, encoded, rest);
    ConcatAssociates(k, [SEMICOLON] + cn, encoded + rest);
  }

  lemma QuotedApart(front: Str, name: Str, rest: Str)
    ensures front + (([DQUOTE] + name + [DQUOTE]) + rest) == (front + [DQUOTE]) + (name + ([DQUOTE] + rest))
  {
    var q: Str := [DQUOTE];
    ConcatAssociates(q, name, q);
    ConcatAssociates(q, name + q, rest);
    ConcatAssociates(name, q, rest);
    ConcatAssociates(front, q, name + (q + rest));
  }

  // ---------- the whole event ----------

  predicate Shows(fields: seq<Printed>) {
    ICalText.SomeTests(Texts(fields), TODO)
  }

  lemma ShowsConcat(a: seq<Printed>, b: seq<Printed>)
    ensures Shows(a + b) <==> Shows(a) || Shows(b)
  {
    TextsConcat(a, b);
    SomeTestsConcat(Texts(a), Texts(b), TODO);
  }

  lemma ShowsOne(field: Printed)
    ensures Shows([field]) <==> ICalText.TestLine(field.text, TODO)
  {
    assert Texts([field]) == [field.text];
    SomeTestsOne(field.text, TODO);
  }

  /** A value printed as it stands. */
  lemma RawDisguised(p: Property, value: Str)
    requires OneLine(value)
    ensures ICalText.TestLine(Field(p, value).text, TODO) <==> Disguised(value)
  {
    var prefix := PropertyName(p) + [COLON];
    FieldPrints(p, value);
    NameIsWord(p);
    WordUnbroken(PropertyName(p));
    TodoIsLiteral();
    assert (prefix + value)[0] == PropertyName(p)[0];
    SeparatorsOnly(prefix + value, TODO, true);
    LinesAfterPrefix(prefix, value, TODO, true);
  }

  lemma TextShows(p: Property, value: Option<Str>)
    ensures Shows(TextField(p, value)) <==> DisguisedOption(value)
  {
    if TextField(p, value) != [] {
      ShowsOne(TextField(p, value)[0]);
      FieldDisguised(p, value.value);
    }
  }

  lemma RawShows(p: Property, value: Option<Str>)
    requires value.Some? ==> OneLine(value.value)
    ensures Shows(RawField(p, value)) <==> DisguisedOption(value)
  {
    if RawField(p, value) != [] {
      ShowsOne(RawField(p, value)[0]);
      RawDisguised(p, value.value);
    }
  }

  lemma HeadShows(input: CalendarInput)
    requires PartsFit(input)
    ensures Shows(HeadFields(input)) <==> Disguised(input.uid) || Disguised(input.stamp) || Disguised(input.name)
  {
    var h := HeadFields(input);
    assert h == [h[0]] + ([h[1]] + [h[2]]);
    ShowsConcat([h[0]], [h[1]] + [h[2]]);
    ShowsConcat([h[1]], [h[2]]);
    ShowsOne(h[0]);
    ShowsOne(h[1]);
    ShowsOne(h[2]);
    FieldDisguised(UID, input.uid);
    RawDisguised(DTSTAMP, input.stamp);
    FieldDisguised(SUMMARY, input.name);
  }

  lemma OrganizerShows(input: CalendarInput)
    requires input.organizer.Some? ==> OneLine(input.organizer.value.email)
    ensures Shows(OrganizerFields(input)) <==> input.organizer.Some? && DisguisedPerson(input.organizer.value)
  {
    if input.organizer.Some? {
      ShowsOne(OrganizerFields(input)[0]);
      PersonDisguised(Organizer, input.organizer.value);
    }
  }

  predicate AnyDisguised(people: seq<Person>) {
    exists i :: 0 <= i < |people| && DisguisedPerson(people[i])
  }

  lemma AttendeesShow(people: seq<Person>)
    requires EmailsFit(people)
    ensures Shows(AttendeeFields(people)) <==> AnyDisguised(people)
  {
    var texts := Texts(AttendeeFields(people));
    forall i | 0 <= i < |people| ensures ICalText.TestLine(texts[i], TODO) <==> DisguisedPerson(people[i]) {
      PersonDisguised(Attendee, people[i]);
    }
  }

  /** Some text of the input, or some line printed elsewhere, holds the word. */
  predicate SomeTextDisguised(input: CalendarInput) {
    || Disguised(input.uid) || Disguised(input.stamp) || Disguised(input.name)
    || DisguisedOption(input.content) || DisguisedOption(input.location) || DisguisedOption(input.url)
    || (input.organizer.Some? && DisguisedPerson(input.organizer.value)) || AnyDisguised(input.attendees)
    || Shows(input.schedule) || Shows(input.attachments)
  }

  /**
   An event is taken for a task exactly when one of its texts holds the line
   BEGIN:VTODO between line or paragraph separators (or after one, at the end of
   a text); in a display name the second separator is needed. The lines printed
   elsewhere are asked as they are.
   */
  lemma DisguisesExactly(input: CalendarInput)
    requires !Refused(input) && PartsFit(input)
    ensures Disguises(input) <==> SomeTextDisguised(input)
  {
    var t, a := input.attachments, AttendeeFields(input.attendees);
    var o, s := OrganizerFields(input), input.schedule;
    var u, l := RawField(URL, input.url), TextField(LOCATION, input.location);
    var d, h := TextField(DESCRIPTION, input.content), HeadFields(input);
    ShowsConcat(a, t);
    ShowsConcat(o, a + t);
    ShowsConcat(s, o + (a + t));
    ShowsConcat(u, s + (o + (a + t)));
    ShowsConcat(l, u + (s + (o + (a + t))));
    ShowsConcat(d, l + (u + (s + (o + (a + t)))));
    ShowsConcat(h, d + (l + (u + (s + (o + (a + t))))));
    HeadShows(input);
    TextShows(DESCRIPTION, input.content);
    TextShows(LOCATION, input.location);
    RawShows(URL, input.url);
    OrganizerShows(input);
    AttendeesShow(input.attendees);
  }

  /**
   What is printed comes back exactly when uid and title are not empty and, for
   an event, none of its texts is disguised; and then it comes back as it was.
   */
  lemma ComesBackExactly(input: CalendarInput)
    requires PartsFit(input) && !Refused(input)
    ensures var r := Reading(Printing(input).value);
      && (r == Ok(Expected(input)) <==>
            input.uid != [] && input.name != [] && (input.task || !SomeTextDisguised(input)))
      && (r.Ok? ==> r == Ok(Expected(input)))
  {
    CalendarRoundTrip(input);
    DisguisesExactly(input);
  }

  lemma UnbrokenShowsNothing(text: Str)
    requires Unbroken(text)
    ensures !Disguised(text)
  {
    TestUnbrokenSeparators(text);
  }

  /** An event made of a uid and a title only, with a plain time stamp. */
  lemma BareEventRoundTrip(input: CalendarInput)
    requires PartsFit(input) && !Refused(input)
    requires !input.task && input.content.None? && input.location.None? && input.url.None?
    requires input.organizer.None? && input.attendees == [] && input.schedule == [] && input.attachments == []
    requires Unbroken(input.stamp)
    ensures Reading(Printing(input).value).Ok?
       <==> (input.uid != [] && input.name != [] && !Disguised(input.uid) && !Disguised(input.name))
  {
    ComesBackExactly(input);
    UnbrokenShowsNothing(input.stamp);
  }
}
