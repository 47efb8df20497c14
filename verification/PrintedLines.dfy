/**
 The lines of a printed calendar object and of a printed card, as whoever
 unfolds the body finds them: every name and every constant spelled out.
 */
module PrintedLines {
  import opened JsString
  import opened Results
  import ICalLine
  import ICalObject
  import ICalText
  import ICalRoundTrip
  import LineFolding
  import TextEscape
  import VCard
  import VCardCycles

  function Line(name: string, value: Str): Str {
    L(name) + [COLON] + value
  }

  /** An optional property: one line when there is something to say. */
  function Optional(name: string, value: Option<Str>): seq<Str> {
    if value.Some? && value.value != [] then [Line(name, value.value)] else []
  }

  /** The escaped text of an optional value. */
  function Escaped(value: Option<Str>): Option<Str> {
    if value.Some? then Some(TextEscape.Escaped(value.value)) else None
  }

  // ---------- calendar objects ----------

  function People(kind: ICalLine.PersonKind, people: seq<ICalLine.Person>): seq<Str>
    requires ICalObject.EmailsFit(people)
  {
    seq(|people|, i requires 0 <= i < |people| => ICalLine.PersonLine(kind, people[i]).value)
  }

  function ComponentLines(input: ICalObject.CalendarInput): seq<Str>
    requires !ICalObject.Refused(input)
  {
    [Line("UID", TextEscape.Escaped(input.uid)), Line("DTSTAMP", input.stamp),
     Line("SUMMARY", TextEscape.Escaped(input.name))]
    + (Optional("DESCRIPTION", Escaped(input.content))
    + (Optional("LOCATION", Escaped(input.location))
    + (Optional("URL", input.url)
    + (ICalObject.Texts(input.schedule)
    + (People(ICalLine.Organizer, if input.organizer.Some? then [input.organizer.value] else [])
    + (People(ICalLine.Attendee, input.attendees)
    + ICalObject.Texts(input.attachments)))))))
  }

  function Calendar(input: ICalObject.CalendarInput): seq<Str>
    requires !ICalObject.Refused(input)
  {
    ([L("BEGIN:VCALENDAR"), L("VERSION:2.0"), L("CALSCALE:GREGORIAN"), L("PRODID:-//Sockethub//CalDAV Platform//EN")]
     + input.zone)
    + ([Line("BEGIN", L(if input.task then "VTODO" else "VEVENT"))]
       + (ComponentLines(input)
          + ([Line("END", L(if input.task then "VTODO" else "VEVENT"))] + [L("END:VCALENDAR")])))
  }

  lemma PropertySaid(p: ICalObject.Property, value: Option<Str>, name: string)
    requires ICalObject.PropertyWord(p) == name
    ensures ICalObject.Texts(ICalObject.RawField(p, value)) == Optional(name, value)
    ensures ICalObject.Texts(ICalObject.TextField(p, value)) == Optional(name, Escaped(value))
  {
    if value.Some? {
      TextEscape.ICalEscapeIsOnePass(value.value);
    }
  }

  lemma HeadSaid(input: ICalObject.CalendarInput)
    ensures ICalObject.Texts(ICalObject.HeadFields(input))
         == [Line("UID", TextEscape.Escaped(input.uid)), Line("DTSTAMP", input.stamp),
             Line("SUMMARY", TextEscape.Escaped(input.name))]
  {
    TextEscape.ICalEscapeIsOnePass(input.uid);
    TextEscape.ICalEscapeIsOnePass(input.name);
  }

  lemma PeopleSaid(input: ICalObject.CalendarInput)
    requires !ICalObject.Refused(input)
    ensures ICalObject.Texts(ICalObject.OrganizerFields(input))
         == People(ICalLine.Organizer, if input.organizer.Some? then [input.organizer.value] else [])
    ensures ICalObject.Texts(ICalObject.AttendeeFields(input.attendees)) == People(ICalLine.Attendee, input.attendees)
  {
  }

  lemma ComponentSaid(input: ICalObject.CalendarInput)
    requires !ICalObject.Refused(input)
    ensures ICalObject.Texts(ICalObject.Fields(input)) == ComponentLines(input)
  {
    var h, d := ICalObject.HeadFields(input), ICalObject.TextField(ICalObject.DESCRIPTION, input.content);
    var l := ICalObject.TextField(ICalObject.LOCATION, input.location);
    var u := ICalObject.RawField(ICalObject.URL, input.url);
    var s, o, t := input.schedule, ICalObject.OrganizerFields(input), input.attachments;
    var a := ICalObject.AttendeeFields(input.attendees);
    HeadSaid(input);
    PropertySaid(ICalObject.DESCRIPTION, input.content, "DESCRIPTION");
    PropertySaid(ICalObject.LOCATION, input.location, "LOCATION");
    PropertySaid(ICalObject.URL, input.url, "URL");
    PeopleSaid(input);
    ICalObject.TextsOfTail(s, o, a, t);
    ICalObject.TextsOfTail(d, l, u, s + (o + (a + t)));
    ICalObject.TextsConcat(h, d + (l + (u + (s + (o + (a + t))))));
  }

  lemma MarkersSaid(task: bool)
    ensures ICalObject.Begin(task) == Line("BEGIN", L(if task then "VTODO" else "VEVENT"))
    ensures ICalObject.End(task) == Line("END", L(if task then "VTODO" else "VEVENT"))
  {
  }

  /** Unfolding a printed object gives these lines, each ended by CRLF. */
  lemma CalendarPrinted(input: ICalObject.CalendarInput)
    requires !ICalObject.Refused(input) && ICalObject.PartsFit(input)
    ensures LineFolding.ICalUnfold(ICalObject.Printing(input).value) == ICalText.Ended(Calendar(input))
  {
    ICalRoundTrip.Unfolded(input);
    ComponentSaid(input);
    MarkersSaid(input.task);
  }

  // ---------- cards ----------

  function Typed(name: string, values: seq<VCard.TypedValue>): seq<Str> {
    seq(|values|, i requires 0 <= i < |values| =>
      L(name) + VCard.Params(values[i].types, values[i].preferred) + [COLON] + TextEscape.Escaped(values[i].value))
  }

  function Links(values: seq<VCard.TypedValue>): seq<Str> {
    seq(|values|, i requires 0 <= i < |values| =>
      L("URL") + VCard.Params(values[i].types, values[i].preferred) + [COLON] + values[i].value)
  }

  /** Components with semicolons between them. */
  function Components(texts: seq<Str>): Str {
    Join(TextEscape.MapEscaped(texts), [SEMICOLON])
  }

  function Places(addresses: seq<VCard.Address>): seq<Str> {
    seq(|addresses|, i requires 0 <= i < |addresses| =>
      L("ADR") + VCard.Params(addresses[i].types, addresses[i].preferred) + [COLON] + Components(addresses[i].parts))
  }

  function Pictures(urls: Option<seq<Str>>): seq<Str> {
    if urls.None? then []
      else seq(|urls.value|, i requires 0 <= i < |urls.value| => Line("PHOTO;VALUE=uri", urls.value[i]))
  }

  function Names(names: seq<Str>): Str {
    Join(names, [COMMA])
  }

  function OwnHead(input: VCard.ContactInput): seq<Str> {
    [Line("VERSION", L("4.0")), Line("PRODID", L("-//Sockethub//CardDAV//EN")),
     Line("UID", TextEscape.Escaped(input.uid)), Line("FN", TextEscape.Escaped(input.name)),
     Line("N", Components([input.family, input.given, Names(input.additional), Names(input.prefixes),
       Names(input.suffixes)]))]
  }

  function OwnLines(input: VCard.ContactInput): seq<Str> {
    OwnHead(input)
    + (Optional("NICKNAME", Escaped(input.nickname))
    + (Typed("EMAIL", input.emails)
    + (Typed("TEL", input.telephones)
    + (Places(input.addresses)
    + (Optional("ORG", Escaped(input.organization))
    + (Optional("TITLE", Escaped(input.title))
    + (Optional("ROLE", Escaped(input.role))
    + (Links(input.urls)
    + (Pictures(input.photoUrls)
    + (Optional("NOTE", Escaped(input.note))
    + Optional("BDAY", input.birthday)))))))))))
  }

  lemma TextSaid(k: VCard.Known, text: Option<Str>, name: string)
    requires VCard.KnownWord(k) == name
    ensures VCard.Texts(VCard.TextField(k, text)) == Optional(name, Escaped(text))
  {
    if text.Some? {
      TextEscape.VCardEscapeIsOnePass(text.value);
      BareSaid(k, TextEscape.Escaped(text.value), name);
    }
  }

  lemma BirthdaySaid(input: VCard.ContactInput)
    ensures VCard.Texts(VCard.BirthdayField(input)) == Optional("BDAY", input.birthday)
  {
    if input.birthday.Some? {
      BareSaid(VCard.BDAY, input.birthday.value, "BDAY");
    }
  }

  lemma TypedSaid(k: VCard.Known, values: seq<VCard.TypedValue>, name: string)
    requires VCard.KnownWord(k) == name
    ensures VCard.Texts(VCard.TypedFields(k, values, true)) == Typed(name, values)
  {
    forall i | 0 <= i < |values|
      ensures TextEscape.VCardEscape(values[i].value) == TextEscape.Escaped(values[i].value) {
      TextEscape.VCardEscapeIsOnePass(values[i].value);
    }
  }

  lemma LinksSaid(input: VCard.ContactInput)
    ensures VCard.Texts(VCard.TypedFields(VCard.URL, input.urls, false)) == Links(input.urls)
  {
  }

  lemma PlacesSaid(input: VCard.ContactInput)
    ensures VCard.Texts(VCard.AddressFields(input.addresses)) == Places(input.addresses)
  {
  }

  lemma PicturesSaid(input: VCard.ContactInput)
    ensures VCard.Texts(VCard.PhotoFields(VCard.Photos(input))) == Pictures(input.photoUrls)
  {
    assert L("PHOTO") + L(";VALUE=uri") == L("PHOTO;VALUE=uri");
  }

  lemma CardHeadSaid(input: VCard.ContactInput)
    ensures VCard.Texts(VCard.HeadFields(input)) == OwnHead(input)
  {
    FrameSaid();
    IdentitySaid(input);
  }

  lemma FrameSaid()
    ensures VCard.Field(VCard.VERSION, [], VCard.V4).Text() == Line("VERSION", L("4.0"))
    ensures VCard.Field(VCard.PRODID, [], L("-//Sockethub//CardDAV//EN")).Text()
         == Line("PRODID", L("-//Sockethub//CardDAV//EN"))
  {
    BareSaid(VCard.VERSION, L("4.0"), "VERSION");
    BareSaid(VCard.PRODID, L("-//Sockethub//CardDAV//EN"), "PRODID");
  }

  lemma IdentitySaid(input: VCard.ContactInput)
    ensures VCard.Field(VCard.UID, [], TextEscape.VCardEscape(input.uid)).Text()
         == Line("UID", TextEscape.Escaped(input.uid))
    ensures VCard.Field(VCard.FN, [], TextEscape.VCardEscape(input.name)).Text()
         == Line("FN", TextEscape.Escaped(input.name))
    ensures VCard.Field(VCard.N, [], Components(VCard.Components(input))).Text()
         == Line("N", Components(VCard.Components(input)))
  {
    TextEscape.VCardEscapeIsOnePass(input.uid);
    TextEscape.VCardEscapeIsOnePass(input.name);
    BareSaid(VCard.UID, TextEscape.Escaped(input.uid), "UID");
    BareSaid(VCard.FN, TextEscape.Escaped(input.name), "FN");
    BareSaid(VCard.N, Components(VCard.Components(input)), "N");
  }

  lemma BareSaid(k: VCard.Known, value: Str, name: string)
    requires VCard.KnownWord(k) == name
    ensures VCard.Field(k, [], value).Text() == Line(name, value)
  {
    assert L(name) + [] == L(name);
  }

  lemma OwnSaid(input: VCard.ContactInput)
    ensures VCard.Texts(VCard.Fields(input)) == OwnLines(input)
  {
    var b, n := VCard.BirthdayField(input), VCard.TextField(VCard.NOTE, input.note);
    var p, u := VCard.PhotoFields(VCard.Photos(input)), VCard.TypedFields(VCard.URL, input.urls, false);
    var r, t := VCard.TextField(VCard.ROLE, input.role), VCard.TextField(VCard.TITLE, input.title);
    var o, a := VCard.TextField(VCard.ORG, input.organization), VCard.AddressFields(input.addresses);
    var l := VCard.TypedFields(VCard.TEL, input.telephones, true);
    var e := VCard.TypedFields(VCard.EMAIL, input.emails, true);
    var k, h := VCard.TextField(VCard.NICKNAME, input.nickname), VCard.HeadFields(input);
    TailSaid(input);
    WorkSaid(input);
    FrontSaid(input);
    CardHeadSaid(input);
    VCard.TextsOfTail(u, p, n, b);
    VCard.TextsOfTail(o, t, r, u + (p + (n + b)));
    VCard.TextsOfTail(e, l, a, o + (t + (r + (u + (p + (n + b))))));
    VCard.TextsConcat(k, e + (l + (a + (o + (t + (r + (u + (p + (n + b)))))))));
    VCard.TextsConcat(h, k + (e + (l + (a + (o + (t + (r + (u + (p + (n + b))))))))));
  }

  lemma FrontSaid(input: VCard.ContactInput)
    ensures VCard.Texts(VCard.TextField(VCard.NICKNAME, input.nickname))
      == Optional("NICKNAME", Escaped(input.nickname))
    ensures VCard.Texts(VCard.TypedFields(VCard.EMAIL, input.emails, true)) == Typed("EMAIL", input.emails)
    ensures VCard.Texts(VCard.TypedFields(VCard.TEL, input.telephones, true)) == Typed("TEL", input.telephones)
    ensures VCard.Texts(VCard.AddressFields(input.addresses)) == Places(input.addresses)
  {
    TextSaid(VCard.NICKNAME, input.nickname, "NICKNAME");
    TypedSaid(VCard.EMAIL, input.emails, "EMAIL");
    TypedSaid(VCard.TEL, input.telephones, "TEL");
    PlacesSaid(input);
  }

  lemma WorkSaid(input: VCard.ContactInput)
    ensures VCard.Texts(VCard.TextField(VCard.ORG, input.organization)) == Optional("ORG", Escaped(input.organization))
    ensures VCard.Texts(VCard.TextField(VCard.TITLE, input.title)) == Optional("TITLE", Escaped(input.title))
    ensures VCard.Texts(VCard.TextField(VCard.ROLE, input.role)) == Optional("ROLE", Escaped(input.role))
  {
    TextSaid(VCard.ORG, input.organization, "ORG");
    TextSaid(VCard.TITLE, input.title, "TITLE");
    TextSaid(VCard.ROLE, input.role, "ROLE");
  }

  lemma TailSaid(input: VCard.ContactInput)
    ensures VCard.Texts(VCard.TypedFields(VCard.URL, input.urls, false)) == Links(input.urls)
    ensures VCard.Texts(VCard.PhotoFields(VCard.Photos(input))) == Pictures(input.photoUrls)
    ensures VCard.Texts(VCard.TextField(VCard.NOTE, input.note)) == Optional("NOTE", Escaped(input.note))
    ensures VCard.Texts(VCard.BirthdayField(input)) == Optional("BDAY", input.birthday)
  {
    LinksSaid(input);
    PicturesSaid(input);
    TextSaid(VCard.NOTE, input.note, "NOTE");
    BirthdaySaid(input);
  }

  /** Unfolding a printed card gives these lines: its own, the preserved ones printed again, and the frame. */
  lemma CardPrinted(input: VCard.ContactInput, preserved: seq<Str>)
    requires VCard.Printing(input, preserved).Ok? && VCardCycles.NoneBlank(preserved)
    ensures LineFolding.VCardUnfold(VCard.Printing(input, preserved).value)
         == [L("BEGIN:VCARD")] + (OwnLines(input) + (VCard.Kept(preserved, input.photoUrls.Some?) + [L("END:VCARD")]))
           + [[]]
  {
    var kept := VCard.Kept(preserved, input.photoUrls.Some?);
    OwnSaid(input);
    VCardCycles.FieldsFit(input);
    VCardCycles.KeptNoneBlank(preserved, input.photoUrls.Some?);
    KeptOneLine(preserved, input.photoUrls.Some?);
    VCardCycles.FramedFits(VCard.Fields(input), kept);
    VCardCycles.FramedNoneBlank(VCard.Texts(VCard.Fields(input)), kept);
    LineFolding.VCardUnfoldInvertsFold(VCardCycles.Framed(VCard.Fields(input), kept));
  }

  lemma {:induction false} KeptOneLine(preserved: seq<Str>, replacePhotos: bool)
    requires VCard.ValidRaws(preserved)
    ensures AllOneLine(VCard.Kept(preserved, replacePhotos))
  {
    if preserved != [] {
      KeptOneLine(preserved[1..], replacePhotos);
    }
  }
}
