/**
 Update cycles: a stored card is read, and a new card is printed from new
 contact data and the stored card's preserved lines. Which lines survive.
 */
module VCardCycles {
  import opened JsString
  import opened Results
  import opened QuotedScan
  import opened VCard
  import opened VCardRoundTrip
  import LineFolding
  import TextEscape

  // ---------- the printed lines are well formed ----------

  lemma TypesPlain(types: seq<Str>)
    requires ValidTypes(types)
    ensures var text := Join(LowerAll(types), [COMMA]); COLON !in text && DQUOTE !in text && OneLine(text)
  {
    var items := LowerAll(types);
    forall i | 0 <= i < |items| ensures COLON !in items[i] && DQUOTE !in items[i] && OneLine(items[i]) {
      assert ValidType(types[i]);
    }
    JoinPlain(items);
  }

  lemma {:induction false} JoinPlain(items: seq<Str>)
    requires forall i | 0 <= i < |items| :: COLON !in items[i] && DQUOTE !in items[i] && OneLine(items[i])
    ensures var text := Join(items, [COMMA]); COLON !in text && DQUOTE !in text && OneLine(text)
  {
    if |items| > 1 {
      JoinPlain(items[1..]);
    }
  }

  lemma ParamsPlain(types: seq<Str>, preferred: bool)
    requires ValidTypes(types)
    ensures PlainParams(Params(types, preferred))
  {
    TypesPlain(types);
    LiteralParams();
  }

  lemma LiteralParams()
    ensures forall text | text in {L(";TYPE="), L(";PREF=1")} ::
      text != [] && text[0] == SEMICOLON && COLON !in text && DQUOTE !in text && OneLine(text)
  {
  }

  predicate Fit(field: Field) {
    Printable(field) && OneLine(field.value)
  }

  predicate AllFit(fields: seq<Field>) {
    forall i | 0 <= i < |fields| :: Fit(fields[i])
  }

  /** Fields printed after the version line. */
  predicate AllLater(fields: seq<Field>) {
    AllFit(fields) && forall i | 0 <= i < |fields| :: fields[i].known != VERSION
  }

  lemma AllLaterConcat(a: seq<Field>, b: seq<Field>)
    requires AllLater(a) && AllLater(b)
    ensures AllLater(a + b)
  {
  }

  lemma FieldFits(field: Field)
    requires Fit(field)
    ensures OneLine(field.Text()) && !LineFolding.StartsBlank(field.Text()) && field.Text() != []
  {
    KnownNamePlain(field.known);
    PlainWordIsUpper(KnownName(field.known));
    assert field.Text()[0] == KnownName(field.known)[0];
  }

  lemma AllFitConcat(a: seq<Field>, b: seq<Field>)
    requires AllFit(a) && AllFit(b)
    ensures AllFit(a + b)
  {
  }

  lemma TextFits(k: Known, text: Option<Str>)
    requires k != VERSION && k != PHOTO
    ensures AllLater(TextField(k, text))
  {
    if text.Some? { TextRead(text.value); }
  }

  lemma TypedFit(k: Known, values: seq<TypedValue>, escape: bool)
    requires k != VERSION && k != PHOTO && ValidValues(values) && (escape || OneLineValues(values))
    ensures AllLater(TypedFields(k, values, escape))
  {
    var fields := TypedFields(k, values, escape);
    forall i | 0 <= i < |fields| ensures Fit(fields[i]) {
      ParamsPlain(values[i].types, values[i].preferred);
      TextRead(values[i].value);
    }
  }

  lemma ComponentsOneLine(texts: seq<Str>)
    ensures OneLine(Join(TextEscape.MapEscaped(texts), [SEMICOLON]))
  {
    forall i | 0 <= i < |texts| ensures OneLine(TextEscape.MapEscaped(texts)[i]) {
      TextRead(texts[i]);
    }
    JoinOneLine(TextEscape.MapEscaped(texts), SEMICOLON);
  }

  lemma AddressesFit(addresses: seq<Address>)
    requires forall i | 0 <= i < |addresses| :: ValidTypes(addresses[i].types)
    ensures AllLater(AddressFields(addresses))
  {
    var fields := AddressFields(addresses);
    forall i | 0 <= i < |fields| ensures Fit(fields[i]) {
      ParamsPlain(addresses[i].types, addresses[i].preferred);
      ComponentsOneLine(addresses[i].parts);
    }
  }

  lemma HeadFits(input: ContactInput)
    ensures AllFit(HeadFields(input))
  {
    TextRead(input.uid);
    TextRead(input.name);
    ComponentsOneLine(Components(input));
    HeadLiterals();
  }

  lemma HeadLiterals()
    ensures OneLine(V4) && OneLine(L("-//Sockethub//CardDAV//EN"))
  {
  }

  lemma PhotosFit(urls: seq<Str>)
    requires AllOneLine(urls)
    ensures AllLater(PhotoFields(urls))
  {
    PhotoSegment();
  }

  lemma FrontFits(input: ContactInput)
    requires !Refused(input)
    ensures AllLater(FrontFields(input))
  {
    var e, t, a := TypedFields(EMAIL, input.emails, true), TypedFields(TEL, input.telephones, true),
      AddressFields(input.addresses);
    TextFits(NICKNAME, input.nickname);
    TypedFit(EMAIL, input.emails, true);
    TypedFit(TEL, input.telephones, true);
    AddressesFit(input.addresses);
    AllLaterConcat(t, a);
    AllLaterConcat(e, t + a);
    AllLaterConcat(TextField(NICKNAME, input.nickname), e + (t + a));
  }

  lemma BackFits(input: ContactInput)
    requires !Refused(input)
    ensures AllLater(BackFields(input))
  {
    var b := BirthdayField(input);
    var n, p, u := TextField(NOTE, input.note), PhotoFields(Photos(input)), TypedFields(URL, input.urls, false);
    var r, t, o := TextField(ROLE, input.role), TextField(TITLE, input.title), TextField(ORG, input.organization);
    TextFits(NOTE, input.note);
    PhotosFit(Photos(input));
    TypedFit(URL, input.urls, false);
    TextFits(ROLE, input.role);
    TextFits(TITLE, input.title);
    TextFits(ORG, input.organization);
    AllLaterConcat(n, b);
    AllLaterConcat(p, n + b);
    AllLaterConcat(u, p + (n + b));
    AllLaterConcat(r, u + (p + (n + b)));
    AllLaterConcat(t, r + (u + (p + (n + b))));
    AllLaterConcat(o, t + (r + (u + (p + (n + b)))));
  }

  lemma FieldsFit(input: ContactInput)
    requires !Refused(input)
    ensures AllFit(Fields(input))
  {
    FieldsInHalves(input);
    HeadFits(input);
    FrontFits(input);
    BackFits(input);
    AllFitConcat(FrontFields(input), BackFields(input));
    AllFitConcat(HeadFields(input), FrontFields(input) + BackFields(input));
  }

  // ---------- lines between the markers ----------

  lemma MarkersFit()
    ensures OneLine(BEGIN) && OneLine(END) && BEGIN != [] && END != []
    ensures Upper(BEGIN) == BEGIN && Upper(END) == END
    ensures !LineFolding.StartsBlank(BEGIN) && !LineFolding.StartsBlank(END)
  {
  }

  lemma {:induction false} TrimNothing(lines: seq<Str>)
    requires lines != [] && lines[0] != [] && lines[|lines| - 1] != []
    ensures TrimBack(TrimFront(lines + [[]])) == lines
  {
    var all := lines + [[]];
    assert all[..|all| - 1] == lines;
    assert TrimBack(all) == TrimBack(lines);
  }

  /** A body whose unfolded lines are framed by BEGIN and END reads as what is between. */
  lemma ReadFramed(lines: seq<Str>, inner: seq<Str>)
    requires lines == [BEGIN] + (inner + [END])
    ensures ReadLines(TrimBack(TrimFront(lines + [[]]))) == Finish(ConsumeAll(EMPTY_CARD, inner))
  {
    MarkersFit();
    TrimNothing(lines);
    assert lines[1..|lines| - 1] == inner;
  }

  /** Kept raw lines together with the printed ones, as they are consumed. */
  lemma ConsumePrinted(fields: seq<Field>, raws: seq<Str>)
    requires AllFit(fields)
    ensures ConsumeAll(EMPTY_CARD, Texts(fields) + raws) == ConsumeAll(ApplyFields(EMPTY_CARD, fields), raws)
    ensures ApplyFields(EMPTY_CARD, fields).preserved == []
  {
    ConsumeFields(EMPTY_CARD, fields, raws);
    FieldsPreserveNothing(EMPTY_CARD, fields);
  }

  /**
   Every line printed from a contact's own fields is parsed without error, and
   none of them ends up among the preserved lines.
   */
  lemma FieldsLeaveNothing(input: ContactInput, card: Card)
    requires !Refused(input)
    ensures ConsumeAll(card, Texts(Fields(input))).Some?
    ensures ConsumeAll(card, Texts(Fields(input))).value.preserved == card.preserved
  {
    FieldsFit(input);
    ConsumeFields(card, Fields(input), []);
    assert Texts(Fields(input)) + [] == Texts(Fields(input));
    FieldsPreserveNothing(card, Fields(input));
  }

  predicate NoneBlank(raws: seq<Str>) {
    forall i | 0 <= i < |raws| :: !LineFolding.StartsBlank(raws[i])
  }

  /** The lines of a card, given the printed and the kept ones. */
  function Framed(fields: seq<Field>, kept: seq<Str>): seq<Str> {
    [BEGIN] + (Texts(fields) + (kept + [END]))
  }

  lemma FramedFits(fields: seq<Field>, kept: seq<Str>)
    requires AllFit(fields) && AllOneLine(kept)
    ensures AllOneLine(Framed(fields, kept))
    ensures NoneBlank(Texts(fields))
  {
    MarkersFit();
    var texts := Texts(fields);
    forall i | 0 <= i < |texts| ensures OneLine(texts[i]) && !LineFolding.StartsBlank(texts[i]) {
      FieldFits(fields[i]);
    }
    AllOneLineConcat(kept, [END]);
    AllOneLineConcat(texts, kept + [END]);
    AllOneLineConcat([BEGIN], texts + (kept + [END]));
  }

  lemma FramedUnfolds(fields: seq<Field>, kept: seq<Str>)
    requires AllFit(fields) && AllPreservable(kept) && NoneBlank(kept)
    ensures LineFolding.VCardUnfold(LineFolding.VCardBody(Framed(fields, kept))) == Framed(fields, kept) + [[]]
  {
    FramedFits(fields, kept);
    FramedNoneBlank(Texts(fields), kept);
    LineFolding.VCardUnfoldInvertsFold(Framed(fields, kept));
  }

  /** Reading a card none of whose kept lines starts with a blank. */
  lemma ReadUnbroken(fields: seq<Field>, kept: seq<Str>)
    requires AllFit(fields) && AllPreservable(kept) && NoneBlank(kept)
    ensures Reading(LineFolding.VCardBody(Framed(fields, kept)))
         == Finish(Some(ApplyFields(EMPTY_CARD, fields).(preserved := kept)))
  {
    FramedUnfolds(fields, kept);
    ConcatAssociates(Texts(fields), kept, [END]);
    ReadFramed(Framed(fields, kept), Texts(fields) + kept);
    ConsumeBoth(fields, kept);
  }

  lemma ConsumeBoth(fields: seq<Field>, kept: seq<Str>)
    requires AllFit(fields) && AllPreservable(kept)
    ensures ConsumeAll(EMPTY_CARD, Texts(fields) + kept) == Some(ApplyFields(EMPTY_CARD, fields).(preserved := kept))
  {
    ConsumePrinted(fields, kept);
    ConsumePreserved(ApplyFields(EMPTY_CARD, fields), kept);
    assert [] + kept == kept;
  }

  lemma PreservableIsValid(preserved: seq<Str>)
    requires AllPreservable(preserved)
    ensures ValidRaws(preserved)
  {
  }

  predicate Named(input: ContactInput) {
    input.uid != [] && input.name != []
  }

  lemma {:induction false} SetTextKeeps(card: Card, k: Known, text: Option<Str>, other: Known)
    requires k != other
    ensures TextOf(SetText(card, k, text), other) == TextOf(card, other)
    ensures SetText(card, k, text).version == card.version && SetText(card, k, text).preserved == card.preserved
  {
  }

  lemma ExpectedText(input: ContactInput, k: Known)
    requires k == UID || k == FN
    ensures TextOf(Expected(input), k) == TextOf(HeadCard(input), k)
    ensures Expected(input).version == Some(V4) && Expected(input).preserved == []
  {
    var named := SetText(HeadCard(input), NICKNAME, input.nickname);
    var reached := Reached(named, input);
    var placed := SetText(SetText(SetText(reached, ORG, input.organization), TITLE, input.title), ROLE, input.role);
    SetTextKeeps(HeadCard(input), NICKNAME, input.nickname, k);
    ReachedText(named, input);
    PlacedText(reached, input, k);
    var pictured := WithTyped(placed, URL, TypedBacks(URL, input.urls)).(photoUrls := Photos(input));
    TypedKeepsTexts(placed, URL, TypedBacks(URL, input.urls));
    SetTextKeeps(pictured, NOTE, input.note, k);
    BirthdayKeeps(SetText(pictured, NOTE, input.note), input, k);
  }

  lemma TypedKeepsTexts(card: Card, k: Known, values: seq<TypedRead>)
    ensures var r := WithTyped(card, k, values);
      r.texts == card.texts && r.version == card.version && r.preserved == card.preserved
  {
  }

  lemma ReachedText(card: Card, input: ContactInput)
    ensures var r := Reached(card, input);
      r.texts == card.texts && r.version == card.version && r.preserved == card.preserved
  {
    var mailed := WithTyped(card, EMAIL, TypedBacks(EMAIL, input.emails));
    TypedKeepsTexts(card, EMAIL, TypedBacks(EMAIL, input.emails));
    TypedKeepsTexts(mailed, TEL, TypedBacks(TEL, input.telephones));
  }

  lemma BirthdayKeeps(card: Card, input: ContactInput, k: Known)
    requires k != BDAY
    ensures var r := SetBirthday(card, input);
      TextOf(r, k) == TextOf(card, k) && r.version == card.version && r.preserved == card.preserved
  {
  }

  lemma PlacedText(named: Card, input: ContactInput, k: Known)
    requires k == UID || k == FN
    ensures var r := SetText(SetText(SetText(named, ORG, input.organization), TITLE, input.title), ROLE, input.role);
      TextOf(r, k) == TextOf(named, k) && r.version == named.version && r.preserved == named.preserved
  {
    var org := SetText(named, ORG, input.organization);
    var title := SetText(org, TITLE, input.title);
    SetTextKeeps(named, ORG, input.organization, k);
    SetTextKeeps(org, TITLE, input.title, k);
    SetTextKeeps(title, ROLE, input.role, k);
  }

  lemma ExpectedHead(input: ContactInput)
    ensures Expected(input).version == Some(V4) && Expected(input).preserved == []
    ensures TextOf(Expected(input), UID) == input.uid && TextOf(Expected(input), FN) == Returned(input.name)
  {
    ExpectedText(input, UID);
    ExpectedText(input, FN);
  }

  /**
   A card printed with preserved lines, none of which starts with a blank, reads
   back as the contact with exactly the lines that were printed again, in order;
   only a card without uid or name is refused.
   */
  lemma CardRoundTrip(input: ContactInput, preserved: seq<Str>)
    requires !Refused(input) && Shaped(input) && AllPreservable(preserved)
    requires NoneBlank(Kept(preserved, input.photoUrls.Some?))
    ensures Printing(input, preserved).Ok?
    ensures var r := Reading(Printing(input, preserved).value);
      if Named(input) then r == Ok(Expected(input).(preserved := Kept(preserved, input.photoUrls.Some?))) else r.Err?
  {
    PreservableIsValid(preserved);
    KeptPreservable(preserved, input.photoUrls.Some?);
    FieldsFit(input);
    ReadUnbroken(Fields(input), Kept(preserved, input.photoUrls.Some?));
    ApplyAllFields(input);
    FinishExpected(input, Kept(preserved, input.photoUrls.Some?));
  }

  lemma FinishExpected(input: ContactInput, kept: seq<Str>)
    ensures var card := Expected(input).(preserved := kept);
      if Named(input) then Finish(Some(card)) == Ok(card) else Finish(Some(card)).Err?
  {
    ExpectedHead(input);
    var card := Expected(input).(preserved := kept);
    assert TextOf(card, UID) == input.uid && TextOf(card, FN) == Returned(input.name);
  }

  lemma FramedNoneBlank(texts: seq<Str>, kept: seq<Str>)
    requires NoneBlank(texts) && NoneBlank(kept)
    ensures var lines := [BEGIN] + (texts + (kept + [END]));
      forall i | 0 < i < |lines| :: !LineFolding.StartsBlank(lines[i])
  {
    MarkersFit();
  }

  // ---------- lines that start with a blank ----------

  /** Merging raw lines onto printed ones: the last printed line may grow, raw lines may vanish. */
  lemma {:induction false} MergeRaws(front: seq<Str>, last: Str, raws: seq<Str>) returns (suffix: Str, rest: seq<Str>)
    requires AllOneLine(raws)
    ensures LineFolding.Merge(front + [last], raws) == front + [last + suffix] + rest
    ensures OneLine(suffix) && |rest| <= |raws|
    ensures !NoneBlank(raws) ==> |rest| < |raws|
    decreases |raws|
  {
    var all := front + [last];
    if raws == [] {
      suffix, rest := [], [];
      assert last + suffix == last;
      assert front + [last] + rest == front + [last];
    } else if LineFolding.StartsBlank(raws[0]) {
      var more, tail := MergeRaws(front, last + raws[0][1..], raws[1..]);
      assert LineFolding.Push(all, raws[0]) == front + [last + raws[0][1..]];
      suffix, rest := raws[0][1..] + more, tail;
      ConcatAssociates(last, raws[0][1..], more);
    } else {
      var more, tail := MergeRaws(all, raws[0], raws[1..]);
      suffix, rest := [], [raws[0] + more] + tail;
      assert last + suffix == last;
      ConcatAssociates(all, [raws[0] + more], tail);
      if !NoneBlank(raws) {
        assert !NoneBlank(raws[1..]);
      }
    }
  }

  lemma {:induction false} MergeSnoc(unfolded: seq<Str>, lines: seq<Str>, line: Str)
    requires !LineFolding.StartsBlank(line)
    ensures LineFolding.Merge(unfolded, lines + [line]) == LineFolding.Merge(unfolded, lines) + [line]
    decreases |lines|
  {
    if lines == [] {
      assert lines + [line] == [line] && [line][1..] == [];
    } else {
      TailOfConcat(lines, [line]);
      MergeSnoc(LineFolding.Push(unfolded, lines[0]), lines[1..], line);
    }
  }

  lemma {:induction false} MergeAppend(unfolded: seq<Str>, a: seq<Str>, b: seq<Str>)
    ensures LineFolding.Merge(unfolded, a + b) == LineFolding.Merge(LineFolding.Merge(unfolded, a), b)
    decreases |a|
  {
    if a == [] {
      assert a + b == b;
    } else {
      TailOfConcat(a, b);
      MergeAppend(LineFolding.Push(unfolded, a[0]), a[1..], b);
    }
  }

  // The last printed line with more text after its value is still a printed line.
  lemma GrownFields(fields: seq<Field>, suffix: Str) returns (grown: seq<Field>)
    requires AllFit(fields) && fields != [] && OneLine(suffix)
    requires fields[|fields| - 1].known != VERSION
    ensures AllFit(grown) && |grown| == |fields|
    ensures Texts(grown) == Texts(fields)[..|fields| - 1] + [Texts(fields)[|fields| - 1] + suffix]
  {
    var n := |fields| - 1;
    var last := fields[n];
    grown := fields[..n] + [Field(last.known, last.params, last.value + suffix)];
    ConcatAssociates(KnownName(last.known) + last.params + [COLON], last.value, suffix);
    assert grown[n].Text() == last.Text() + suffix;
  }

  lemma LastFieldIsNotVersion(input: ContactInput)
    requires !Refused(input)
    ensures Fields(input) != [] && Fields(input)[|Fields(input)| - 1].known != VERSION
  {
    var tail := FrontFields(input) + BackFields(input);
    FieldsInHalves(input);
    FrontFits(input);
    BackFits(input);
    AllLaterConcat(FrontFields(input), BackFields(input));
    LastOfConcat(HeadFields(input), tail);
  }

  lemma LastOfConcat(head: seq<Field>, tail: seq<Field>)
    requires head != []
    ensures var all := head + tail; all[|all| - 1] == if tail == [] then head[|head| - 1] else tail[|tail| - 1]
  {
  }

  /** What unfolding makes of a card some of whose kept lines start with a blank. */
  lemma UnfoldedWithBlanks(fields: seq<Field>, kept: seq<Str>) returns (grown: seq<Field>, rest: seq<Str>)
    requires AllFit(fields) && fields != [] && fields[|fields| - 1].known != VERSION
    requires AllOneLine(kept) && !NoneBlank(kept)
    ensures AllFit(grown) && |rest| < |kept|
    ensures LineFolding.VCardUnfold(LineFolding.VCardBody(Framed(fields, kept)))
         == [BEGIN] + ((Texts(grown) + rest) + [END]) + [[]]
  {
    FramedFits(fields, kept);
    LineFolding.VCardUnfoldFolded(Framed(fields, kept));
    var suffix;
    suffix, rest := MergedAround(Texts(fields), kept);
    grown := GrownFields(fields, suffix);
  }

  lemma MergedAround(texts: seq<Str>, kept: seq<Str>) returns (suffix: Str, rest: seq<Str>)
    requires NoneBlank(texts) && texts != [] && AllOneLine(kept) && !NoneBlank(kept)
    ensures OneLine(suffix) && |rest| < |kept|
    ensures LineFolding.Merge([], [BEGIN] + (texts + (kept + [END])))
         == [BEGIN] + (((texts[..|texts| - 1] + [texts[|texts| - 1] + suffix]) + rest) + [END])
  {
    var n := |texts| - 1;
    MergedCard(texts, kept);
    suffix, rest := MergeRaws([BEGIN] + texts[..n], texts[n], kept);
    LastApart(BEGIN, texts);
    Reassociate(BEGIN, texts[..n], texts[n] + suffix, rest, END);
  }

  lemma LastApart(begin: Str, texts: seq<Str>)
    requires texts != []
    ensures [begin] + texts[..|texts| - 1] + [texts[|texts| - 1]] == [begin] + texts
  {
  }

  lemma Reassociate(begin: Str, front: seq<Str>, last: Str, rest: seq<Str>, end: Str)
    ensures [begin] + front + [last] + rest + [end] == [begin] + (((front + [last]) + rest) + [end])
  {
  }

  /** With a blank-started line among them, fewer lines come back than were printed again. */
  lemma BlankLinesAreLost(input: ContactInput, preserved: seq<Str>)
    requires !Refused(input) && AllPreservable(preserved)
    requires !NoneBlank(Kept(preserved, input.photoUrls.Some?))
    ensures Printing(input, preserved).Ok?
    ensures var r := Reading(Printing(input, preserved).value);
      r.Ok? ==> |r.value.preserved| < |Kept(preserved, input.photoUrls.Some?)|
  {
    PreservableIsValid(preserved);
    KeptPreservable(preserved, input.photoUrls.Some?);
    FieldsFit(input);
    LastFieldIsNotVersion(input);
    FewerComeBack(Fields(input), Kept(preserved, input.photoUrls.Some?));
  }

  lemma FewerComeBack(fields: seq<Field>, kept: seq<Str>)
    requires AllFit(fields) && fields != [] && fields[|fields| - 1].known != VERSION
    requires AllPreservable(kept) && !NoneBlank(kept)
    ensures var r := Reading(LineFolding.VCardBody(Framed(fields, kept))); r.Ok? ==> |r.value.preserved| < |kept|
  {
    var grown, rest := UnfoldedWithBlanks(fields, kept);
    ReadFramed([BEGIN] + ((Texts(grown) + rest) + [END]), Texts(grown) + rest);
    FewerConsumed(grown, rest);
  }

  lemma FewerConsumed(fields: seq<Field>, raws: seq<Str>)
    requires AllFit(fields)
    ensures var card := ConsumeAll(EMPTY_CARD, Texts(fields) + raws); card.Some? ==> |card.value.preserved| <= |raws|
  {
    ConsumePrinted(fields, raws);
    ConsumeCount(ApplyFields(EMPTY_CARD, fields), raws);
  }

  lemma MergedCard(texts: seq<Str>, kept: seq<Str>)
    requires NoneBlank(texts)
    ensures LineFolding.Merge([], [BEGIN] + (texts + (kept + [END])))
         == LineFolding.Merge([BEGIN] + texts, kept) + [END]
  {
    MarkersFit();
    var front := [BEGIN] + texts;
    assert forall i | 0 < i < |front| :: front[i] == texts[i - 1];
    LineFolding.MergeSeparate([], front);
    assert [] + front == front;
    ConcatAssociates([BEGIN], texts, kept + [END]);
    MergeAppend([], front, kept + [END]);
    MergeSnoc(front, kept, END);
  }

  /**
   Such lines do get stored: an empty physical line followed by a continuation
   that starts with a second blank unfolds to a line that starts with a blank.
   */
  lemma BlankLineStored(fields: seq<Field>, raw: Str)
    requires AllFit(fields) && Preservable(raw) && LineFolding.StartsBlank(raw)
    ensures Reading(LineFolding.VCardBody([BEGIN] + (Texts(fields) + ([[], [SP] + raw] + [END]))))
         == Finish(Some(ApplyFields(EMPTY_CARD, fields).(preserved := [raw])))
  {
    var texts := Texts(fields);
    GapUnfolds(fields, raw);
    ReadFramed([BEGIN] + ((texts + [raw]) + [END]), texts + [raw]);
    ConsumeBoth(fields, [raw]);
  }

  /** A blank, a name and nothing more. */
  const BLANK_RAW: Str := [SP, 88, COLON]

  const BLANK_NAME: Str := [SP, 88]

  lemma BlankRawParses()
    ensures ContentLine(BLANK_RAW) == Some(VLine(BLANK_NAME, map[], []))
  {
    var last: Str := [88];
    assert last[1..] == [] && BLANK_NAME[1..] == last;
    assert UnquotedIndex(last, COLON, false).None? && !QuotedAfter(last, false);
    assert UnquotedIndex(BLANK_NAME, COLON, false).None? && !QuotedAfter(BLANK_NAME, false);
    IndexSkips(BLANK_NAME, [COLON], COLON, false);
    assert BLANK_RAW == BLANK_NAME + [COLON] && BLANK_RAW[..2] == BLANK_NAME && BLANK_RAW[3..] == [];
    SplitAbsent(BLANK_NAME, SEMICOLON);
    SplitAbsent(BLANK_NAME, DOT);
    assert Upper(BLANK_NAME) == BLANK_NAME;
  }

  lemma BlankRawIsKept()
    ensures Preservable(BLANK_RAW) && LineFolding.StartsBlank(BLANK_RAW) && PrintsAgain(BLANK_RAW, false)
  {
    BlankRawParses();
    BlankNameUnknown(BLANK_NAME);
  }

  lemma BlankNameUnknown(name: Str)
    requires name != [] && name[0] == SP
    ensures KnownOf(name).None?
  {
    forall k ensures KnownName(k) != name {
      KnownNamePlain(k);
    }
  }

  /** A contact with nothing but a uid and a name. */
  const SAMPLE: ContactInput := ContactInput(
    L("u"), L("N"), [], [], [], [], [], None, [], [], [], None, None, None, [], None, None, None)

  lemma GapUnfolds(fields: seq<Field>, raw: Str)
    requires AllFit(fields) && Preservable(raw)
    ensures LineFolding.VCardUnfold(LineFolding.VCardBody([BEGIN] + (Texts(fields) + ([[], [SP] + raw] + [END]))))
         == [BEGIN] + ((Texts(fields) + [raw]) + [END]) + [[]]
  {
    GapOneLine(raw);
    var texts := Texts(fields);
    var gap: seq<Str> := [[], [SP] + raw];
    FramedFits(fields, gap);
    LineFolding.VCardUnfoldFolded(Framed(fields, gap));
    MergedGap(texts, raw);
  }

  lemma GapOneLine(raw: Str)
    requires OneLine(raw)
    ensures AllOneLine([[], [SP] + raw])
  {
  }

  lemma MergedGap(texts: seq<Str>, raw: Str)
    requires NoneBlank(texts)
    ensures LineFolding.Merge([], [BEGIN] + (texts + ([[], [SP] + raw] + [END]))) == [BEGIN] + ((texts + [raw]) + [END])
  {
    MergedCard(texts, [[], [SP] + raw]);
    MergeGap([BEGIN] + texts, raw);
    ConcatAssociates([BEGIN], texts, [raw]);
    ConcatAssociates([BEGIN], texts + [raw], [END]);
  }

  lemma MergeGap(lines: seq<Str>, raw: Str)
    requires lines != []
    ensures LineFolding.Merge(lines, [[], [SP] + raw]) == lines + [raw]
  {
    var gap: seq<Str> := [[], [SP] + raw];
    var extended: seq<Str> := lines + [[]];
    var rest := gap[1..];
    assert rest == [[SP] + raw] && rest[1..] == [];
    assert extended[..|extended| - 1] == lines && ([SP] + raw)[1..] == raw && [] + raw == raw;
    assert LineFolding.Push(extended, rest[0]) == lines + [raw];
    assert LineFolding.Merge(extended, rest) == LineFolding.Merge(lines + [raw], rest[1..]);
    assert LineFolding.Merge(lines, gap) == LineFolding.Merge(extended, rest);
  }

  // ---------- cycles ----------

  /** One update: the stored body is read and a new one printed with its preserved lines. */
  function Cycle(body: Str, input: ContactInput): Result<Str> {
    var stored := Reading(body);
    if stored.Err? then Err("unsupported-update")
    else if TextOf(stored.value, UID) != input.uid then Err("uid-mismatch")
    else Printing(input, stored.value.preserved)
  }

  /** Inputs taken in one after the other, up to the first failure. */
  function Chain<S, I>(step: (S, I) -> Result<S>, state: S, inputs: seq<I>): Result<S>
    decreases |inputs|
  {
    if inputs == [] then Ok(state)
    else
      var next := step(state, inputs[0]);
      if next.Err? then next else Chain(step, next.value, inputs[1..])
  }

  lemma {:induction false} ChainPrefix<S, I>(step: (S, I) -> Result<S>, state: S, inputs: seq<I>, n: nat)
    requires n <= |inputs| && Chain(step, state, inputs).Ok?
    ensures Chain(step, state, inputs[..n]).Ok?
    decreases n
  {
    if n > 0 {
      ChainPrefix(step, step(state, inputs[0]).value, inputs[1..], n - 1);
      assert inputs[..n][1..] == inputs[1..][..n - 1];
    }
  }

  lemma ChainOne<S, I>(step: (S, I) -> Result<S>, state: S, input: I)
    ensures Chain(step, state, [input]) == step(state, input)
  {
    assert [input][1..] == [];
  }

  lemma ChainFirst<S, I>(step: (S, I) -> Result<S>, state: S, inputs: seq<I>)
    requires inputs != [] && Chain(step, state, inputs).Ok?
    ensures step(state, inputs[0]).Ok?
    ensures Chain(step, state, inputs) == Chain(step, step(state, inputs[0]).value, inputs[1..])
  {
  }

  function Cycles(body: Str, inputs: seq<ContactInput>): Result<Str> {
    Chain(Cycle, body, inputs)
  }

  predicate AnyPhotos(inputs: seq<ContactInput>) {
    exists i :: 0 <= i < |inputs| && inputs[i].photoUrls.Some?
  }

  /** One update preserves exactly the lines it prints again, iff none of those starts with a blank. */
  lemma CyclePreserves(body: Str, input: ContactInput)
    requires Shaped(input) && Named(input) && Cycle(body, input).Ok?
    ensures var kept := Kept(Reading(body).value.preserved, input.photoUrls.Some?);
      var again := Reading(Cycle(body, input).value);
      && (NoneBlank(kept) <==> again.Ok? && again.value.preserved == kept)
      && (NoneBlank(kept) ==> again == Ok(Expected(input).(preserved := kept)))
  {
    var preserved := Reading(body).value.preserved;
    ReadIsPreservable(body);
    if NoneBlank(Kept(preserved, input.photoUrls.Some?)) {
      CardRoundTrip(input, preserved);
    } else {
      BlankLinesAreLost(input, preserved);
    }
  }

  lemma {:induction false} KeptNoneBlank(preserved: seq<Str>, replacePhotos: bool)
    requires NoneBlank(preserved)
    ensures NoneBlank(Kept(preserved, replacePhotos))
  {
    if preserved != [] {
      KeptNoneBlank(preserved[1..], replacePhotos);
    }
  }

  /**
   After these updates the card holds exactly the unknown lines it held at
   first, verbatim and in order, and its embedded photos exactly when no update
   supplied photo URLs.
   */
  predicate Preserved(body: Str, inputs: seq<ContactInput>)
    requires Reading(body).Ok?
  {
    && Cycles(body, inputs).Ok? && Reading(Cycles(body, inputs).value).Ok?
    && Reading(Cycles(body, inputs).value).value.preserved == Kept(Reading(body).value.preserved, AnyPhotos(inputs))
  }

  predicate AllNamed(inputs: seq<ContactInput>) {
    forall i | 0 <= i < |inputs| :: Shaped(inputs[i]) && Named(inputs[i])
  }

  /** It is enough that no line printed again by the first update starts with a blank. */
  lemma {:induction false} CyclesPreserve(body: Str, inputs: seq<ContactInput>)
    requires inputs != [] && AllNamed(inputs) && Cycles(body, inputs).Ok?
    requires Reading(body).Ok? && NoneBlank(Kept(Reading(body).value.preserved, inputs[0].photoUrls.Some?))
    ensures Preserved(body, inputs)
    decreases |inputs|
  {
    var preserved := Reading(body).value.preserved;
    var photos := inputs[0].photoUrls.Some?;
    ChainFirst(Cycle, body, inputs);
    CyclePreserves(body, inputs[0]);
    var next := Cycle(body, inputs[0]).value;
    AnyPhotosStep(inputs);
    if |inputs| > 1 {
      KeptNoneBlank(Kept(preserved, photos), inputs[1].photoUrls.Some?);
      CyclesPreserve(next, inputs[1..]);
      KeptTwice(preserved, photos, AnyPhotos(inputs[1..]));
    }
  }

  lemma OneCyclePreserves(body: Str, input: ContactInput)
    requires Shaped(input) && Named(input) && Cycle(body, input).Ok?
    ensures Preserved(body, [input]) <==> NoneBlank(Kept(Reading(body).value.preserved, input.photoUrls.Some?))
  {
    ChainOne(Cycle, body, input);
    CyclePreserves(body, input);
    AnyPhotosStep([input]);
    assert [input][1..] == [];
  }

  /** For updates that succeed: every one of them preserves the lines exactly when the first one does. */
  lemma CyclesPreserveExactly(body: Str, inputs: seq<ContactInput>)
    requires inputs != [] && AllNamed(inputs) && Cycles(body, inputs).Ok? && Reading(body).Ok?
    ensures (forall n | 1 <= n <= |inputs| :: Preserved(body, inputs[..n]))
       <==> NoneBlank(Kept(Reading(body).value.preserved, inputs[0].photoUrls.Some?))
  {
    if NoneBlank(Kept(Reading(body).value.preserved, inputs[0].photoUrls.Some?)) {
      forall n | 1 <= n <= |inputs| ensures Preserved(body, inputs[..n]) {
        ChainPrefix(Cycle, body, inputs, n);
        CyclesPreserve(body, inputs[..n]);
      }
    } else {
      ChainFirst(Cycle, body, inputs);
      OneCyclePreserves(body, inputs[0]);
      assert inputs[..1] == [inputs[0]];
      assert !Preserved(body, inputs[..1]);
    }
  }

  lemma AnyPhotosStep(inputs: seq<ContactInput>)
    requires inputs != []
    ensures AnyPhotos(inputs) <==> inputs[0].photoUrls.Some? || AnyPhotos(inputs[1..])
  {
    if AnyPhotos(inputs[1..]) {
      var i :| 0 <= i < |inputs[1..]| && inputs[1..][i].photoUrls.Some?;
      assert inputs[i + 1].photoUrls.Some?;
    }
    if i :| 0 <= i < |inputs| && inputs[i].photoUrls.Some? {
      assert i > 0 ==> inputs[1..][i - 1].photoUrls.Some?;
    }
  }

  // ---------- a line that is lost ----------

  /** The body of the sample contact with a blank-started line in it. */
  const SAMPLE_BODY: Str :=
    LineFolding.VCardBody([BEGIN] + (Texts(Fields(SAMPLE)) + ([[], [SP] + BLANK_RAW] + [END])))

  lemma SampleReads()
    ensures Reading(SAMPLE_BODY) == Ok(Expected(SAMPLE).(preserved := [BLANK_RAW]))
  {
    BlankRawIsKept();
    SampleFits();
    FieldsFit(SAMPLE);
    BlankLineStored(Fields(SAMPLE), BLANK_RAW);
    ApplyAllFields(SAMPLE);
    FinishExpected(SAMPLE, [BLANK_RAW]);
  }

  lemma SampleCycles()
    ensures Cycle(SAMPLE_BODY, SAMPLE) == Printing(SAMPLE, [BLANK_RAW]) && Cycle(SAMPLE_BODY, SAMPLE).Ok?
  {
    SampleReads();
    SampleFits();
    ExpectedHead(SAMPLE);
    BlankRawIsKept();
    BlankIsKept();
    assert AllPreservable([BLANK_RAW]);
    BlankLinesAreLost(SAMPLE, [BLANK_RAW]);
  }

  /** A readable card that stores a blank-started line, which its next update loses. */
  lemma BlankLineHappens()
    ensures Reading(SAMPLE_BODY) == Ok(Expected(SAMPLE).(preserved := [BLANK_RAW]))
    ensures Cycle(SAMPLE_BODY, SAMPLE).Ok? && !Preserved(SAMPLE_BODY, [SAMPLE])
  {
    SampleReads();
    SampleCycles();
    SampleFits();
    BlankIsKept();
    OneCyclePreserves(SAMPLE_BODY, SAMPLE);
  }

  lemma SampleFits()
    ensures !Refused(SAMPLE) && Named(SAMPLE) && Shaped(SAMPLE)
  {
  }

  lemma BlankIsKept()
    ensures Kept([BLANK_RAW], false) == [BLANK_RAW] && !NoneBlank([BLANK_RAW])
  {
    BlankRawIsKept();
    assert [BLANK_RAW][1..] == [];
  }
}
