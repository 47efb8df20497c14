/**
 Contacts printed and read back, and update cycles: reading a stored card and
 printing a new one that carries its preserved lines along.
 */
module VCardRoundTrip {
  import opened JsString
  import opened Results
  import opened QuotedScan
  import opened VCard
  import LineFolding
  import TextEscape

  // ---------- generated lines ----------

  lemma {:induction false} SplitAbsent(s: Str, separator: Unit)
    requires separator !in s
    ensures Split(s, separator) == [s]
  {
    if s != [] {
      assert s[0] in s;
      SplitAbsent(s[1..], separator);
      HeadAndTail(s);
    }
  }

  lemma {:induction false} SplitAfter(s: Str, separator: Unit, rest: Str)
    requires separator !in s
    ensures Split(s + ([separator] + rest), separator) == [s] + Split(rest, separator)
  {
    var all := s + ([separator] + rest);
    if s == [] {
      assert all == [separator] + rest && all[1..] == rest;
    } else {
      assert s[0] in s;
      SplitAfter(s[1..], separator, rest);
      TailOfConcat(s, [separator] + rest);
      HeadAndTail(s);
    }
  }

  /** Parameters as printed: none, or a semicolon and text without colon and quote. */
  predicate PlainParams(params: Str) {
    params == [] || (params[0] == SEMICOLON && COLON !in params && DQUOTE !in params && OneLine(params))
  }

  function ParamsRead(params: Str): map<Str, seq<Str>> {
    if params == [] then map[] else AddSegments(map[], Split(params[1..], SEMICOLON))
  }

  lemma HeadClosed(k: Known, params: Str)
    requires PlainParams(params)
    ensures Closed(KnownName(k) + params, COLON)
  {
    KnownNamePlain(k);
    PlainWordIsUpper(KnownName(k));
    PlainClosed(KnownName(k) + params, COLON);
  }

  lemma HeadSplit(k: Known, params: Str)
    requires PlainParams(params)
    ensures var segments := Split(KnownName(k) + params, SEMICOLON);
      NameOf(segments[0]) == KnownName(k) && AddSegments(map[], segments[1..]) == ParamsRead(params)
  {
    var name := KnownName(k);
    KnownNamePlain(k);
    PlainWordIsUpper(name);
    SplitAbsent(name, DOT);
    if params == [] {
      SplitAbsent(name, SEMICOLON);
      assert name + params == name;
    } else {
      HeadAndTail(params);
      SplitAfter(name, SEMICOLON, params[1..]);
    }
  }

  /** A printed line parses to its property, whatever its value is. */
  lemma FieldParses(k: Known, params: Str, value: Str)
    requires PlainParams(params)
    ensures ContentLine(Field(k, params, value).Text()) == Some(VLine(KnownName(k), ParamsRead(params), value))
  {
    var head := KnownName(k) + params;
    HeadClosed(k, params);
    HeadSplit(k, params);
    KnownNamePlain(k);
    IndexSkips(head, [COLON] + value, COLON, false);
    ConcatAssociates(head, [COLON], value);
    var line := Field(k, params, value).Text();
    assert line[..|head|] == head && line[|head| + 1..] == value;
  }

  // ---------- what printed lines do to the card ----------

  /** Lines the printer makes: never kept raw when they are read. */
  predicate Printable(field: Field) {
    && PlainParams(field.params)
    && (field.known == VERSION ==> field.value == V4)
    && (field.known == PHOTO ==> field.params == L(";VALUE=uri"))
  }

  predicate AllPrintable(fields: seq<Field>) {
    forall i | 0 <= i < |fields| :: Printable(fields[i])
  }

  lemma PhotoSegment()
    ensures L(";VALUE=uri") == [SEMICOLON] + (VALUE + [EQUALS] + URI)
    ensures PlainParams(L(";VALUE=uri"))
  {
  }

  lemma PhotoWords()
    ensures SEMICOLON !in VALUE && SEMICOLON !in URI && EQUALS !in VALUE && COMMA !in URI
    ensures Upper(VALUE) == VALUE && Lower(URI) == URI && StripQuotes(URI) == URI
  {
  }

  lemma PhotoParams()
    ensures PlainParams(L(";VALUE=uri"))
    ensures var params := ParamsRead(L(";VALUE=uri")); VALUE in params && params[VALUE] == [URI]
  {
    PhotoSegment();
    PhotoWords();
    ReadSinglePair(L(";VALUE=uri"), VALUE, URI);
  }

  lemma ReadSinglePair(params: Str, key: Str, value: Str)
    requires params == [SEMICOLON] + (key + [EQUALS] + value)
    requires SEMICOLON !in key + [EQUALS] + value && EQUALS !in key && COMMA !in value
    requires Upper(key) == key && Lower(value) == value && StripQuotes(value) == value
    ensures ParamsRead(params) == map[key := [value]]
  {
    var segment := key + [EQUALS] + value;
    assert params[1..] == segment;
    SplitAbsent(segment, SEMICOLON);
    IndexOfSkips(key, EQUALS, value);
    assert segment[..|key|] == key && segment[|key| + 1..] == value;
    SplitAbsent(value, COMMA);
    assert LowerAll([value]) == [value];
    assert AddSegment(map[], segment) == map[key := [value]];
    var segments := [segment];
    assert segments[1..] == [];
    assert AddSegments(map[], segments) == AddSegments(AddSegment(map[], segment), []);
  }

  function ApplyField(card: Card, field: Field): Card {
    ApplyKnown(card, field.known, ParamsRead(field.params), field.value)
  }

  function ApplyFields(card: Card, fields: seq<Field>): Card
    decreases |fields|
  {
    if fields == [] then card else ApplyFields(ApplyField(card, fields[0]), fields[1..])
  }

  lemma ConsumeField(card: Card, field: Field)
    requires Printable(field)
    ensures Consume(card, field.Text()) == Some(ApplyField(card, field))
  {
    FieldParses(field.known, field.params, field.value);
    KnownOfName(field.known);
    if field.known == PHOTO { PhotoParams(); }
  }

  lemma {:induction false} ConsumeFields(card: Card, fields: seq<Field>, rest: seq<Str>)
    requires AllPrintable(fields)
    ensures ConsumeAll(card, Texts(fields) + rest) == ConsumeAll(ApplyFields(card, fields), rest)
    decreases |fields|
  {
    if fields == [] {
      assert Texts(fields) + rest == rest;
    } else {
      var next := FirstConsumed(card, fields, rest);
      ConsumeFields(next, fields[1..], rest);
    }
  }

  lemma FirstConsumed(card: Card, fields: seq<Field>, rest: seq<Str>) returns (next: Card)
    requires AllPrintable(fields) && fields != []
    ensures ConsumeAll(card, Texts(fields) + rest) == ConsumeAll(next, Texts(fields[1..]) + rest)
    ensures ApplyFields(card, fields) == ApplyFields(next, fields[1..])
  {
    next := ApplyField(card, fields[0]);
    ConsumeField(card, fields[0]);
    ApplyFirst(card, fields);
    assert Texts(fields)[1..] == Texts(fields[1..]);
    TailOfConcat(Texts(fields), rest);
    ConsumeFirst(card, Texts(fields) + rest, next);
  }

  lemma ConsumeFirst(card: Card, raws: seq<Str>, next: Card)
    requires raws != [] && Consume(card, raws[0]) == Some(next)
    ensures ConsumeAll(card, raws) == ConsumeAll(next, raws[1..])
  {
  }

  lemma ApplyFirst(card: Card, fields: seq<Field>)
    requires fields != []
    ensures ApplyFields(card, fields) == ApplyFields(ApplyField(card, fields[0]), fields[1..])
  {
  }

  lemma {:induction false} ApplyFieldsConcat(card: Card, a: seq<Field>, b: seq<Field>)
    ensures ApplyFields(card, a + b) == ApplyFields(ApplyFields(card, a), b)
    decreases |a|
  {
    if a == [] {
      assert a + b == b;
    } else {
      ApplyFieldsConcat(ApplyField(card, a[0]), a[1..], b);
      TailOfConcat(a, b);
    }
  }

  /** Printed lines never touch the preserved list. */
  lemma {:induction false} FieldsPreserveNothing(card: Card, fields: seq<Field>)
    ensures ApplyFields(card, fields).preserved == card.preserved
    decreases |fields|
  {
    if fields != [] {
      KnownPreservesNothing(card, fields[0].known, ParamsRead(fields[0].params), fields[0].value);
      FieldsPreserveNothing(ApplyField(card, fields[0]), fields[1..]);
    }
  }

  // ---------- preserved lines ----------

  /** A raw line that reading keeps as it stands. */
  predicate Preservable(raw: Str) {
    raw != [] && OneLine(raw) && ContentLine(raw).Some? && IsKeptRaw(ContentLine(raw).value)
  }

  predicate AllPreservable(raws: seq<Str>) {
    forall i | 0 <= i < |raws| :: Preservable(raws[i])
  }

  lemma {:induction false} ConsumePreserved(card: Card, raws: seq<Str>)
    requires AllPreservable(raws)
    ensures ConsumeAll(card, raws) == Some(card.(preserved := card.preserved + raws))
    decreases |raws|
  {
    if raws == [] {
      assert card.preserved + raws == card.preserved;
    } else {
      var next := card.(preserved := card.preserved + [raws[0]]);
      ConsumePreserved(next, raws[1..]);
      HeadAndTail(raws);
      ConcatAssociates(card.preserved, [raws[0]], raws[1..]);
    }
  }

  /** What reading preserves from any body are preservable lines of that body. */
  lemma {:induction false} ConsumeKeepsPreservable(card: Card, raws: seq<Str>)
    requires AllOneLine(raws) && AllPreservable(card.preserved)
    ensures ConsumeAll(card, raws).Some? ==> AllPreservable(ConsumeAll(card, raws).value.preserved)
    decreases |raws|
  {
    if raws != [] && Consume(card, raws[0]).Some? {
      ConsumeOnePreservable(card, raws[0]);
      ConsumeKeepsPreservable(Consume(card, raws[0]).value, raws[1..]);
    }
  }

  lemma ConsumeOnePreservable(card: Card, raw: Str)
    requires OneLine(raw) && AllPreservable(card.preserved) && Consume(card, raw).Some?
    ensures AllPreservable(Consume(card, raw).value.preserved)
  {
    if raw != [] {
      var line := ContentLine(raw).value;
      if IsKeptRaw(line) {
        assert AllPreservable(card.preserved + [raw]);
      } else {
        KnownPreservesNothing(card, KnownOf(line.name).value, line.params, line.value);
      }
    }
  }

  lemma KnownPreservesNothing(card: Card, k: Known, params: map<Str, seq<Str>>, value: Str)
    ensures ApplyKnown(card, k, params, value).preserved == card.preserved
  {
  }

  lemma {:induction false} ConsumeCount(card: Card, raws: seq<Str>)
    ensures ConsumeAll(card, raws).Some? ==> |ConsumeAll(card, raws).value.preserved| <= |card.preserved| + |raws|
    decreases |raws|
  {
    if raws != [] && Consume(card, raws[0]).Some? {
      KeepsAtMostOne(card, raws[0]);
      ConsumeCount(Consume(card, raws[0]).value, raws[1..]);
    }
  }

  lemma KeepsAtMostOne(card: Card, raw: Str)
    requires Consume(card, raw).Some?
    ensures |Consume(card, raw).value.preserved| <= |card.preserved| + 1
  {
    if raw != [] {
      ApplyKeepsAtMostOne(card, raw, ContentLine(raw).value);
    }
  }

  lemma ApplyKeepsAtMostOne(card: Card, raw: Str, line: VLine)
    ensures |Apply(card, raw, line).preserved| <= |card.preserved| + 1
  {
  }

  lemma {:induction false} NormalizedLines(s: Str)
    requires CR !in s
    ensures AllOneLine(Split(s, LF))
  {
    if s != [] {
      assert s[0] in s;
      NormalizedLines(s[1..]);
      var rest := Split(s[1..], LF);
      assert forall i | 0 < i < |rest| :: OneLine(rest[i]);
    }
  }

  lemma {:induction false} MergedOneLine(unfolded: seq<Str>, lines: seq<Str>)
    requires AllOneLine(unfolded) && AllOneLine(lines)
    ensures AllOneLine(LineFolding.Merge(unfolded, lines))
    decreases |lines|
  {
    if lines != [] {
      assert OneLine(lines[0][if lines[0] == [] then 0 else 1..]);
      MergedOneLine(LineFolding.Push(unfolded, lines[0]), lines[1..]);
    }
  }

  /** Unfolded lines hold no line break. */
  lemma UnfoldedOneLine(body: Str)
    ensures AllOneLine(LineFolding.VCardUnfold(body))
  {
    LineFolding.NewlinePasses(body);
    NormalizedLines(Normalize(body));
    MergedOneLine([], Split(Normalize(body), LF));
  }

  lemma {:induction false} TrimFrontOneLine(lines: seq<Str>)
    requires AllOneLine(lines)
    ensures AllOneLine(TrimFront(lines))
  {
    if lines != [] && lines[0] == [] {
      TrimFrontOneLine(lines[1..]);
    }
  }

  lemma {:induction false} TrimBackOneLine(lines: seq<Str>)
    requires AllOneLine(lines)
    ensures AllOneLine(TrimBack(lines))
  {
    if lines != [] && lines[|lines| - 1] == [] {
      TrimBackOneLine(lines[..|lines| - 1]);
    }
  }

  /** Every line preserved from a stored card can be printed and kept again. */
  lemma ReadIsPreservable(body: Str)
    ensures Reading(body).Ok? ==> AllPreservable(Reading(body).value.preserved)
  {
    UnfoldedOneLine(body);
    TrimFrontOneLine(LineFolding.VCardUnfold(body));
    var lines := TrimBack(TrimFront(LineFolding.VCardUnfold(body)));
    TrimBackOneLine(TrimFront(LineFolding.VCardUnfold(body)));
    if Reading(body).Ok? {
      ConsumeKeepsPreservable(EMPTY_CARD, if |lines| == 1 then [] else lines[1..|lines| - 1]);
    }
  }

  lemma {:induction false} KeptPreservable(preserved: seq<Str>, replacePhotos: bool)
    requires AllPreservable(preserved)
    ensures AllPreservable(Kept(preserved, replacePhotos))
  {
    if preserved != [] {
      KeptPreservable(preserved[1..], replacePhotos);
    }
  }

  /** Keeping twice is keeping once, with photos dropped if either step drops them. */
  lemma {:induction false} KeptTwice(preserved: seq<Str>, first: bool, second: bool)
    ensures Kept(Kept(preserved, first), second) == Kept(preserved, first || second)
  {
    if preserved != [] {
      KeptTwice(preserved[1..], first, second);
      var rest := Kept(preserved[1..], first);
      if PrintsAgain(preserved[0], first) {
        assert ([preserved[0]] + rest)[1..] == rest;
      } else {
        assert Kept(preserved, first) == rest;
        assert Kept(preserved, first || second) == Kept(preserved[1..], first || second);
      }
    }
  }

  // ---------- one cycle ----------

  /** Contact text as it comes back. */
  function Returned(text: Str): Str {
    TextEscape.Garbled(Normalize(text))
  }

  function MapReturned(texts: seq<Str>): (r: seq<Str>)
    ensures |r| == |texts|
    ensures forall i | 0 <= i < |texts| :: r[i] == Returned(texts[i])
  {
    seq(|texts|, i requires 0 <= i < |texts| => Returned(texts[i]))
  }

  function SetText(card: Card, k: Known, text: Option<Str>): Card {
    if text.Some? && text.value != [] then card.(texts := card.texts[k := Returned(text.value)]) else card
  }

  function SetBirthday(card: Card, input: ContactInput): Card {
    if input.birthday.Some? && input.birthday.value != [] then card.(texts := card.texts[BDAY := input.birthday.value])
    else card
  }

  function HeadCard(input: ContactInput): Card {
    Card(Some(V4), map[UID := input.uid, FN := Returned(input.name)], NameBack(input), [], map[], [], [])
  }

  function NameBack(input: ContactInput): NameRead {
    NameRead(Some(Returned(input.family)), Some(Returned(input.given)),
             NamesBack(input.additional), NamesBack(input.prefixes), NamesBack(input.suffixes))
  }

  /** A list of names is printed as one escaped text and split only after that text is unescaped. */
  function NamesBack(names: seq<Str>): Option<seq<Str>> {
    NamesOf(Returned(Join(names, [COMMA])))
  }

  /**
   A list of names comes back exactly when its text survives the text round trip
   and no name holds a comma, other than behind a backslash, or swallows the
   comma after it.
   */
  lemma NamesComeBack(names: seq<Str>)
    ensures var text := Join(names, [COMMA]);
      NamesBack(names) == Some(names)
      <==> text != [] && LastingText(text) && TextEscape.Separable(names, COMMA)
  {
    var text := Join(names, [COMMA]);
    TextRead(text);
    TextEscape.ReadBackExactly(text);
    TextEscape.SplitExactly(Returned(text), COMMA, names);
  }

  /** A printed value as it comes back: a scheme in front of it is dropped, `pref` among the types is a preference. */
  function TypedBack(k: Known, v: TypedValue): TypedRead {
    var types := LowerAll(v.types);
    TypedRead(ValueBack(k, v.value), WithoutPref(types), v.preferred || PREF_TYPE in types)
  }

  function ValueBack(k: Known, value: Str): Str {
    match k
    case TEL => Returned(StripPrefix(StripPrefix(value, TEL_SCHEME), MAILTO))
    case URL => TextEscape.VCardUnescape(StripPrefix(value, MAILTO))
    case _ => Returned(StripPrefix(value, MAILTO))
  }

  /** No leading scheme that the parser drops, and text that survives printing and reading. */
  predicate Lasting(k: Known, value: Str) {
    && !StartsWith(value, MAILTO) && (k == TEL ==> !StartsWith(value, TEL_SCHEME))
    && (if k == URL then !TextEscape.HasEscape(value) else LastingText(value))
  }

  predicate LastingText(text: Str) {
    CR !in text && !TextEscape.HasBackslashN(text)
  }

  /**
   A mail address, telephone or URL comes back as it was exactly without a
   leading scheme that the parser drops; escaped text must also survive the text
   round trip, and a URL, printed raw and read as text, must hold no escape.
   */
  lemma ValueComesBack(k: Known, value: Str)
    requires k in {EMAIL, TEL, URL}
    ensures ValueBack(k, value) == value <==> Lasting(k, value)
  {
    SchemesNotEmpty();
    var bare := StripPrefix(if k == TEL then StripPrefix(value, TEL_SCHEME) else value, MAILTO);
    assert |bare| <= |value|;
    if k == URL {
      TextEscape.UnescapeExactly(bare);
    } else {
      TextRead(bare);
      TextEscape.ReadBackExactly(bare);
    }
  }

  /** A type name without capital letters that is not the preference mark. */
  predicate LastingType(t: Str) {
    t != PREF_TYPE && forall i | 0 <= i < |t| :: !('A' as int <= t[i] <= 'Z' as int)
  }

  predicate LastingTypes(types: seq<Str>) {
    forall i | 0 <= i < |types| :: LastingType(types[i])
  }

  lemma {:induction false} WithoutPrefExactly(types: seq<Str>)
    ensures |WithoutPref(types)| <= |types|
    ensures WithoutPref(types) == types <==> PREF_TYPE !in types
    ensures PREF_TYPE !in WithoutPref(types)
    ensures PREF_TYPE in types ==> |WithoutPref(types)| < |types|
  {
    if types != [] {
      WithoutPrefExactly(types[1..]);
      HeadAndTail(types);
      assert PREF_TYPE in types <==> types[0] == PREF_TYPE || PREF_TYPE in types[1..];
    }
  }

  lemma LowerExactly(s: Str)
    ensures Lower(s) == s <==> forall i | 0 <= i < |s| :: !('A' as int <= s[i] <= 'Z' as int)
  {
    assert forall i | 0 <= i < |s| :: LowerUnit(s[i]) == s[i] <==> !('A' as int <= s[i] <= 'Z' as int);
    if Lower(s) == s {
      forall i | 0 <= i < |s| ensures LowerUnit(s[i]) == s[i] {
        assert Lower(s)[i] == s[i];
      }
    }
  }

  /** The types come back, and no preference is made of them, exactly when all of them last. */
  lemma TypesComeBack(types: seq<Str>)
    ensures WithoutPref(LowerAll(types)) == types <==> LastingTypes(types)
    ensures LastingTypes(types) ==> PREF_TYPE !in LowerAll(types)
  {
    var lower := LowerAll(types);
    WithoutPrefExactly(lower);
    forall i | 0 <= i < |types| ensures lower[i] == types[i] <==> Lower(types[i]) == types[i] {
    }
    forall i | 0 <= i < |types|
      ensures Lower(types[i]) == types[i]
        <==> forall j | 0 <= j < |types[i]| :: !('A' as int <= types[i][j] <= 'Z' as int) {
      LowerExactly(types[i]);
    }
    if LastingTypes(types) {
      assert forall i | 0 <= i < |types| :: LastingType(types[i]);
      assert lower == types;
    }
    if WithoutPref(lower) == types {
      assert lower == types;
      forall i | 0 <= i < |types| ensures LastingType(types[i]) {
        assert types[i] in lower && lower[i] == types[i];
      }
    }
  }

  /** A value comes back with its types and its preference exactly when it and its types last. */
  lemma TypedComesBack(k: Known, v: TypedValue)
    requires k in {EMAIL, TEL, URL}
    ensures TypedBack(k, v) == TypedRead(v.value, v.types, v.preferred)
      <==> Lasting(k, v.value) && LastingTypes(v.types)
  {
    ValueComesBack(k, v.value);
    TypesComeBack(v.types);
  }

  lemma PartsComeBack(parts: seq<Str>, i: nat)
    requires i < |parts|
    ensures PartAt(MapReturned(parts), i) == PartAt(parts, i) <==> LastingText(parts[i])
  {
    TextRead(parts[i]);
    TextEscape.ReadBackExactly(parts[i]);
  }

  /** An address comes back exactly when all its parts and types last. */
  lemma AddressComesBack(a: Address)
    requires |a.parts| == 7
    ensures AddressBack(a) == AddressRead(SevenParts(a.parts), a.types, a.preferred)
       <==> (forall i | 0 <= i < 7 :: LastingText(a.parts[i])) && LastingTypes(a.types)
  {
    TypesComeBack(a.types);
    var back, given := SevenParts(MapReturned(a.parts)), SevenParts(a.parts);
    forall i | 0 <= i < 7 ensures back[i] == given[i] <==> LastingText(a.parts[i]) {
      PartsComeBack(a.parts, i);
    }
    if forall i | 0 <= i < 7 :: LastingText(a.parts[i]) {
      assert back == given;
    }
  }

  lemma SchemesNotEmpty()
    ensures MAILTO != [] && TEL_SCHEME != []
  {
  }

  function TypedBacks(k: Known, values: seq<TypedValue>): (r: seq<TypedRead>)
    ensures |r| == |values|
    ensures forall i | 0 <= i < |values| :: r[i] == TypedBack(k, values[i])
  {
    seq(|values|, i requires 0 <= i < |values| => TypedBack(k, values[i]))
  }

  function AddressBack(a: Address): AddressRead {
    var types := LowerAll(a.types);
    AddressRead(SevenParts(MapReturned(a.parts)), WithoutPref(types), a.preferred || PREF_TYPE in types)
  }

  function AddressBacks(addresses: seq<Address>): (r: seq<AddressRead>)
    ensures |r| == |addresses|
    ensures forall i | 0 <= i < |addresses| :: r[i] == AddressBack(addresses[i])
  {
    seq(|addresses|, i requires 0 <= i < |addresses| => AddressBack(addresses[i]))
  }

  /** What reading a printed contact must give, preserved lines aside. */
  function Expected(input: ContactInput): Card {
    var named := SetText(HeadCard(input), NICKNAME, input.nickname);
    var placed := SetText(SetText(SetText(Reached(named, input), ORG, input.organization), TITLE, input.title), ROLE,
      input.role);
    var pictured := WithTyped(placed, URL, TypedBacks(URL, input.urls)).(photoUrls := Photos(input));
    SetBirthday(SetText(pictured, NOTE, input.note), input)
  }

  /** With the mail addresses, telephones and postal addresses. */
  function Reached(card: Card, input: ContactInput): Card {
    var mailed := WithTyped(card, EMAIL, TypedBacks(EMAIL, input.emails));
    var called := WithTyped(mailed, TEL, TypedBacks(TEL, input.telephones));
    WithAddresses(called, AddressBacks(input.addresses))
  }

  lemma TextRead(text: Str)
    ensures TextEscape.VCardUnescape(TextEscape.VCardEscape(text)) == Returned(text)
    ensures TextEscape.SplitFrom(TextEscape.VCardEscape(text), SEMICOLON, [], false) == [TextEscape.VCardEscape(text)]
    ensures OneLine(TextEscape.VCardEscape(text))
  {
    TextEscape.VCardTextReadBack(text);
    TextEscape.VCardEscapeIsOnePass(text);
    TextEscape.SplitInvertsJoin([text], SEMICOLON);
    assert TextEscape.MapEscaped([text]) == [TextEscape.VCardEscape(text)];
  }

  lemma ApplyText(card: Card, k: Known, text: Option<Str>)
    requires k in {NICKNAME, ORG, TITLE, ROLE, NOTE}
    ensures ApplyFields(card, TextField(k, text)) == SetText(card, k, text)
  {
    var fields := TextField(k, text);
    if fields != [] {
      TextRead(text.value);
      assert fields[1..] == [];
    }
  }

  // ---------- typed values ----------

  /** Text of which escaping changes nothing. */
  predicate Unescapable(s: Str) {
    forall i | 0 <= i < |s| :: s[i] == COLON || 97 <= s[i] <= 122
  }

  lemma StartsWithStep(s: Str, prefix: Str)
    requires prefix != []
    ensures StartsWith(s, prefix) <==> s != [] && LowerUnit(s[0]) == prefix[0] && StartsWith(s[1..], prefix[1..])
  {
    if |s| >= |prefix| {
      var n := |prefix|;
      assert Lower(s[..n])[0] == LowerUnit(s[0]);
      assert Lower(s[..n])[1..] == Lower(s[1..][..n - 1]);
      HeadAndTail(prefix);
      HeadAndTail(Lower(s[..n]));
    }
  }

  /** A scheme in front of a text stays what it is when the text is escaped. */
  lemma {:induction false} EscapedPrefix(s: Str, prefix: Str)
    requires Unescapable(prefix)
    ensures StartsWith(TextEscape.Escaped(s), prefix) <==> StartsWith(s, prefix)
    ensures StartsWith(s, prefix) ==> TextEscape.Escaped(s)[|prefix|..] == TextEscape.Escaped(s[|prefix|..])
    decreases |prefix|
  {
    var e := TextEscape.Escaped(s);
    if prefix == [] {
      assert e[0..] == e && s[0..] == s && s[..0] == [] && e[..0] == [];
    } else {
      StartsWithStep(s, prefix);
      StartsWithStep(e, prefix);
      if s != [] && LowerUnit(s[0]) == prefix[0] {
        assert !StartsWithCrlf(s);
        assert e == [s[0]] + TextEscape.Escaped(s[1..]);
        EscapedPrefix(s[1..], prefix[1..]);
        assert e[1..] == TextEscape.Escaped(s[1..]);
        if StartsWith(s[1..], prefix[1..]) {
          assert s[1..][|prefix| - 1..] == s[|prefix|..];
          assert e[1..][|prefix| - 1..] == e[|prefix|..];
        }
      } else if s != [] {
        assert e[0] == s[0] || e[0] == BACKSLASH;
      }
    }
  }

  lemma StripEscaped(s: Str, prefix: Str)
    requires Unescapable(prefix)
    ensures StripPrefix(TextEscape.VCardEscape(s), prefix) == TextEscape.VCardEscape(StripPrefix(s, prefix))
  {
    TextEscape.VCardEscapeIsOnePass(s);
    TextEscape.VCardEscapeIsOnePass(StripPrefix(s, prefix));
    EscapedPrefix(s, prefix);
  }

  lemma SchemesUnescapable()
    ensures Unescapable(MAILTO) && Unescapable(TEL_SCHEME)
  {
  }

  /** The value of a typed line as the parser reads it. */
  lemma ValueRead(k: Known, value: Str)
    requires k == EMAIL || k == TEL
    ensures var printed := TextEscape.VCardEscape(value);
      TextEscape.VCardUnescape(StripPrefix(if k == TEL then StripPrefix(printed, TEL_SCHEME) else printed, MAILTO))
        == ValueBack(k, value)
  {
    SchemesUnescapable();
    var bare := if k == TEL then StripPrefix(value, TEL_SCHEME) else value;
    if k == TEL { StripEscaped(value, TEL_SCHEME); }
    StripEscaped(bare, MAILTO);
    TextRead(StripPrefix(bare, MAILTO));
  }

  // ---------- parameters ----------

  lemma {:induction false} SplitJoined(items: seq<Str>, separator: Unit)
    requires items != [] && forall i | 0 <= i < |items| :: separator !in items[i]
    ensures Split(Join(items, [separator]), separator) == items
  {
    if |items| == 1 {
      SplitAbsent(items[0], separator);
    } else {
      SplitJoined(items[1..], separator);
      ConcatAssociates(items[0], [separator], Join(items[1..], [separator]));
      SplitAfter(items[0], separator, Join(items[1..], [separator]));
      HeadAndTail(items);
    }
  }

  predicate PlainType(t: Str) {
    COMMA !in t && DQUOTE !in t && SEMICOLON !in t && EQUALS !in t
  }

  lemma {:induction false} JoinedPlain(items: seq<Str>)
    requires forall i | 0 <= i < |items| :: PlainType(items[i])
    ensures var text := Join(items, [COMMA]); DQUOTE !in text && SEMICOLON !in text && EQUALS !in text
  {
    if |items| > 1 {
      JoinedPlain(items[1..]);
    }
  }

  lemma LowerTypes(types: seq<Str>)
    requires ValidTypes(types)
    ensures forall i | 0 <= i < |types| :: PlainType(LowerAll(types)[i])
    ensures LowerAll(LowerAll(types)) == LowerAll(types)
  {
    forall i | 0 <= i < |types| ensures PlainType(LowerAll(types)[i]) {
      assert ValidType(types[i]);
    }
    forall i | 0 <= i < |types| ensures Lower(LowerAll(types)[i]) == LowerAll(types)[i] {
      assert forall j | 0 <= j < |types[i]| :: LowerUnit(LowerUnit(types[i][j])) == LowerUnit(types[i][j]);
    }
  }

  /** What the parser makes of one printed parameter. */
  lemma SegmentRead(m: map<Str, seq<Str>>, key: Str, text: Str, items: seq<Str>)
    requires EQUALS !in key && Upper(key) == key && DQUOTE !in text
    requires Split(text, COMMA) == items && LowerAll(items) == items
    ensures AddSegment(m, key + [EQUALS] + text) == m[key := items]
  {
    var segment := key + [EQUALS] + text;
    IndexOfSkips(key, EQUALS, text);
    assert segment[..|key|] == key && segment[|key| + 1..] == text;
    assert StripQuotes(text) == text;
  }

  function TypeText(types: seq<Str>): Str {
    TYPE + [EQUALS] + Join(LowerAll(types), [COMMA])
  }

  lemma TypeSegment(m: map<Str, seq<Str>>, types: seq<Str>)
    requires ValidTypes(types) && types != []
    ensures SEMICOLON !in TypeText(types) && AddSegment(m, TypeText(types)) == m[TYPE := LowerAll(types)]
  {
    ParamWords();
    LowerTypes(types);
    JoinedPlain(LowerAll(types));
    SplitJoined(LowerAll(types), COMMA);
    SegmentRead(m, TYPE, Join(LowerAll(types), [COMMA]), LowerAll(types));
  }

  lemma ParamWords()
    ensures EQUALS !in TYPE && SEMICOLON !in TYPE && Upper(TYPE) == TYPE
    ensures EQUALS !in PREF && SEMICOLON !in PREF && Upper(PREF) == PREF && PREF != TYPE
  {
    assert TYPE[0] != PREF[0];
  }

  lemma ParamLiterals()
    ensures L(";TYPE=") == [SEMICOLON] + (TYPE + [EQUALS]) && L(";PREF=1") == [SEMICOLON] + (PREF + [EQUALS] + L("1"))
  {
  }

  lemma PrefSegment(m: map<Str, seq<Str>>)
    ensures SEMICOLON !in PREF + [EQUALS] + L("1") && AddSegment(m, PREF + [EQUALS] + L("1")) == m[PREF := [L("1")]]
  {
    ParamWords();
    var one := L("1");
    assert one[0] == 49 && |one| == 1;
    SplitAbsent(one, COMMA);
    assert LowerAll([one]) == [one] by { assert Lower(one) == one; }
    SegmentRead(m, PREF, one, [one]);
  }

  /** The parameters printed for a value, read back. */
  function ParamsBack(types: seq<Str>, preferred: bool): map<Str, seq<Str>> {
    var typed: map<Str, seq<Str>> := if types == [] then map[] else map[TYPE := LowerAll(types)];
    if preferred then typed[PREF := [L("1")]] else typed
  }

  lemma AddOne(m: map<Str, seq<Str>>, segment: Str)
    ensures AddSegments(m, [segment]) == AddSegment(m, segment)
  {
    assert [segment][1..] == [];
  }

  lemma AddTwo(m: map<Str, seq<Str>>, first: Str, second: Str)
    ensures AddSegments(m, [first] + [second]) == AddSegment(AddSegment(m, first), second)
  {
    var segments := [first] + [second];
    assert segments[0] == first && segments[1..] == [second];
    AddOne(AddSegment(m, first), second);
  }

  lemma PreferenceRead()
    ensures ParamsRead(L(";PREF=1")) == map[PREF := [L("1")]]
  {
    var second := PREF + [EQUALS] + L("1");
    ParamLiterals();
    PrefSegment(map[]);
    SplitAbsent(second, SEMICOLON);
    AddOne(map[], second);
    assert L(";PREF=1")[1..] == second;
  }

  lemma TypesRead(types: seq<Str>)
    requires ValidTypes(types) && types != []
    ensures ParamsRead([SEMICOLON] + TypeText(types)) == map[TYPE := LowerAll(types)]
  {
    var first := TypeText(types);
    TypeSegment(map[], types);
    SplitAbsent(first, SEMICOLON);
    AddOne(map[], first);
    assert ([SEMICOLON] + first)[1..] == first;
  }

  lemma BothRead(types: seq<Str>)
    requires ValidTypes(types) && types != []
    ensures ParamsRead([SEMICOLON] + TypeText(types) + L(";PREF=1")) == map[TYPE := LowerAll(types)][PREF := [L("1")]]
  {
    var first, second := TypeText(types), PREF + [EQUALS] + L("1");
    ParamLiterals();
    TypeSegment(map[], types);
    PrefSegment(map[TYPE := LowerAll(types)]);
    SplitAbsent(second, SEMICOLON);
    SplitAfter(first, SEMICOLON, second);
    AddTwo(map[], first, second);
    ConcatAssociates([SEMICOLON], first, [SEMICOLON] + second);
    assert ([SEMICOLON] + (first + ([SEMICOLON] + second)))[1..] == first + ([SEMICOLON] + second);
  }

  lemma ParamsReadBack(types: seq<Str>, preferred: bool)
    requires ValidTypes(types)
    ensures ParamsRead(Params(types, preferred)) == ParamsBack(types, preferred)
  {
    var pref: Str := if preferred then L(";PREF=1") else [];
    if types == [] {
      assert Params(types, preferred) == [] + pref == pref;
      if preferred { PreferenceRead(); }
    } else {
      ParamLiterals();
      ConcatAssociates([SEMICOLON], TYPE + [EQUALS], Join(LowerAll(types), [COMMA]));
      assert Params(types, preferred) == [SEMICOLON] + TypeText(types) + pref;
      if preferred {
        BothRead(types);
      } else {
        TypesRead(types);
        assert [SEMICOLON] + TypeText(types) + [] == [SEMICOLON] + TypeText(types);
      }
    }
  }

  lemma ParamsMean(types: seq<Str>, preferred: bool)
    requires ValidTypes(types)
    ensures var params := ParamsRead(Params(types, preferred));
      && TypesOf(params) == WithoutPref(LowerAll(types))
      && (IsPreferred(params) <==> preferred || PREF_TYPE in LowerAll(types))
  {
    ParamsReadBack(types, preferred);
    ParamWords();
  }

  lemma TypedFieldApplied(card: Card, k: Known, v: TypedValue)
    requires k in {EMAIL, TEL, URL} && ValidTypes(v.types)
    ensures ApplyField(card, TypedField(k, v, k != URL)) == WithTyped(card, k, [TypedBack(k, v)])
  {
    ParamsMean(v.types, v.preferred);
    if k != URL { ValueRead(k, v.value); }
  }

  lemma WithTypedTwice(card: Card, k: Known, a: seq<TypedRead>, b: seq<TypedRead>)
    ensures WithTyped(WithTyped(card, k, a), k, b) == WithTyped(card, k, a + b)
  {
    if a == [] {
      assert a + b == b;
    } else if b == [] {
      assert a + b == a;
    } else {
      ConcatAssociates(TypedOf(card, k), a, b);
    }
  }

  /** On every card these lines append these values. */
  ghost predicate Append(k: Known, fields: seq<Field>, backs: seq<TypedRead>) {
    |fields| == |backs|
    && forall i, card | 0 <= i < |fields| :: ApplyField(card, fields[i]) == WithTyped(card, k, [backs[i]])
  }

  lemma {:induction false} ApplyAppending(card: Card, k: Known, fields: seq<Field>, backs: seq<TypedRead>)
    requires Append(k, fields, backs)
    ensures ApplyFields(card, fields) == WithTyped(card, k, backs)
    decreases |fields|
  {
    if fields != [] {
      ApplyAppending(WithTyped(card, k, [backs[0]]), k, fields[1..], backs[1..]);
      WithTypedTwice(card, k, [backs[0]], backs[1..]);
      HeadAndTail(backs);
    }
  }

  lemma ApplyTyped(card: Card, k: Known, values: seq<TypedValue>)
    requires k in {EMAIL, TEL, URL} && ValidValues(values)
    ensures ApplyFields(card, TypedFields(k, values, k != URL)) == WithTyped(card, k, TypedBacks(k, values))
  {
    var fields, backs := TypedFields(k, values, k != URL), TypedBacks(k, values);
    forall i, c: Card | 0 <= i < |values| ensures ApplyField(c, fields[i]) == WithTyped(c, k, [backs[i]]) {
      TypedFieldApplied(c, k, values[i]);
    }
    ApplyAppending(card, k, fields, backs);
  }

  lemma AddressFieldApplied(card: Card, a: Address)
    requires ValidTypes(a.types) && a.parts != []
    ensures ApplyField(card, AddressField(a)) == WithAddresses(card, [AddressBack(a)])
  {
    ParamsMean(a.types, a.preferred);
    ComponentsRead(a.parts);
    AddressKnown(card, ParamsRead(Params(a.types, a.preferred)), Join(TextEscape.MapEscaped(a.parts), [SEMICOLON]), a);
  }

  lemma AddressKnown(card: Card, params: map<Str, seq<Str>>, value: Str, a: Address)
    requires TypesOf(params) == WithoutPref(LowerAll(a.types))
    requires IsPreferred(params) <==> a.preferred || PREF_TYPE in LowerAll(a.types)
    requires MapUnescape(TextEscape.SplitFrom(value, SEMICOLON, [], false)) == MapReturned(a.parts)
    ensures ApplyKnown(card, ADR, params, value) == WithAddresses(card, [AddressBack(a)])
  {
  }

  predicate ValidAddresses(addresses: seq<Address>) {
    forall i | 0 <= i < |addresses| :: ValidTypes(addresses[i].types)
  }

  /** The printer always writes seven parts of ADR. */
  predicate Shaped(input: ContactInput) {
    forall i | 0 <= i < |input.addresses| :: |input.addresses[i].parts| == 7
  }

  predicate FilledAddresses(addresses: seq<Address>) {
    forall i | 0 <= i < |addresses| :: addresses[i].parts != []
  }

  ghost predicate AppendAddresses(fields: seq<Field>, backs: seq<AddressRead>) {
    |fields| == |backs|
    && forall i, card | 0 <= i < |fields| :: ApplyField(card, fields[i]) == WithAddresses(card, [backs[i]])
  }

  lemma {:induction false} ApplyAppendingAddresses(card: Card, fields: seq<Field>, backs: seq<AddressRead>)
    requires AppendAddresses(fields, backs)
    ensures ApplyFields(card, fields) == WithAddresses(card, backs)
    decreases |fields|
  {
    if fields == [] {
      assert card.addresses + backs == card.addresses;
    } else {
      ApplyAppendingAddresses(WithAddresses(card, [backs[0]]), fields[1..], backs[1..]);
      WithAddressesTwice(card, [backs[0]], backs[1..]);
      HeadAndTail(backs);
    }
  }

  lemma WithAddressesTwice(card: Card, a: seq<AddressRead>, b: seq<AddressRead>)
    ensures WithAddresses(WithAddresses(card, a), b) == WithAddresses(card, a + b)
  {
    ConcatAssociates(card.addresses, a, b);
  }

  lemma ApplyAddresses(card: Card, addresses: seq<Address>)
    requires ValidAddresses(addresses) && FilledAddresses(addresses)
    ensures ApplyFields(card, AddressFields(addresses)) == WithAddresses(card, AddressBacks(addresses))
  {
    var fields, backs := AddressFields(addresses), AddressBacks(addresses);
    forall i, c: Card | 0 <= i < |addresses|
      ensures ApplyField(c, fields[i]) == WithAddresses(c, [backs[i]]) {
      AddressFieldApplied(c, addresses[i]);
    }
    ApplyAppendingAddresses(card, fields, backs);
  }

  lemma PhotoKnown(card: Card, params: map<Str, seq<Str>>, url: Str)
    ensures ApplyKnown(card, PHOTO, params, url) == card.(photoUrls := card.photoUrls + [url])
  {
  }

  lemma PhotoApplied(card: Card, field: Field)
    requires field.known == PHOTO
    ensures ApplyField(card, field) == card.(photoUrls := card.photoUrls + [field.value])
  {
    PhotoKnown(card, ParamsRead(field.params), field.value);
  }

  lemma {:induction false} ApplyPhotos(card: Card, urls: seq<Str>)
    ensures ApplyFields(card, PhotoFields(urls)) == card.(photoUrls := card.photoUrls + urls)
    decreases |urls|
  {
    if urls == [] {
      assert card.photoUrls + urls == card.photoUrls;
    } else {
      PhotoApplied(card, PhotoFields(urls)[0]);
      ApplyPhotos(card.(photoUrls := card.photoUrls + [urls[0]]), urls[1..]);
      assert PhotoFields(urls) == [PhotoFields(urls)[0]] + PhotoFields(urls[1..]);
      ApplyOne(card, PhotoFields(urls)[0], PhotoFields(urls[1..]));
      HeadAndTail(urls);
      ConcatAssociates(card.photoUrls, [urls[0]], urls[1..]);
    }
  }

  lemma ApplyOne(card: Card, field: Field, rest: seq<Field>)
    ensures ApplyFields(card, [field] + rest) == ApplyFields(ApplyField(card, field), rest)
  {
    assert ([field] + rest)[1..] == rest;
  }

  lemma UidReturned(input: ContactInput)
    requires !Refused(input)
    ensures Returned(input.uid) == input.uid
  {
    NormalizeIdentity(input.uid);
    NoBackslash(input.uid);
    TextEscape.GarbledIdentity(input.uid);
  }

  lemma {:induction false} NoBackslash(s: Str)
    requires BACKSLASH !in s
    ensures !TextEscape.HasBackslashN(s)
  {
    if |s| >= 2 {
      assert s[0] in s;
      NoBackslash(s[1..]);
    }
  }

  lemma ComponentsRead(texts: seq<Str>)
    requires texts != []
    ensures MapUnescape(TextEscape.SplitFrom(Join(TextEscape.MapEscaped(texts), [SEMICOLON]), SEMICOLON, [], false))
         == MapReturned(texts)
  {
    TextEscape.SplitInvertsJoin(texts, SEMICOLON);
    forall i | 0 <= i < |texts|
      ensures TextEscape.VCardUnescape(TextEscape.VCardEscape(texts[i])) == Returned(texts[i]) {
      TextRead(texts[i]);
    }
  }

  lemma NameReadBack(input: ContactInput)
    ensures ReadName(NO_NAME, MapReturned(Components(input))) == NameBack(input)
  {
  }

  lemma TextApplied(card: Card, field: Field, text: Str)
    requires (field.known == UID || field.known == FN) && field.value == TextEscape.VCardEscape(text)
    ensures ApplyField(card, field) == card.(texts := card.texts[field.known := Returned(text)])
  {
    TextRead(text);
  }

  lemma NameApplied(card: Card, field: Field, input: ContactInput)
    requires field.known == N && field.value == Join(TextEscape.MapEscaped(Components(input)), [SEMICOLON])
    requires card.name == NO_NAME
    ensures ApplyField(card, field) == card.(name := NameBack(input))
  {
    ComponentsRead(Components(input));
    NameReadBack(input);
  }

  lemma FrameApplied(card: Card, field: Field)
    ensures field.known == VERSION ==> ApplyField(card, field) == card.(version := Some(field.value))
    ensures field.known == PRODID ==> ApplyField(card, field) == card
  {
  }

  lemma ApplyHead(input: ContactInput)
    requires !Refused(input)
    ensures ApplyFields(EMPTY_CARD, HeadFields(input)) == HeadCard(input)
  {
    var h := HeadFields(input);
    var c1 := EMPTY_CARD.(version := Some(V4));
    var c2 := c1.(texts := c1.texts[UID := Returned(input.uid)]);
    var c3 := c2.(texts := c2.texts[FN := Returned(input.name)]);
    var c4 := c3.(name := NameBack(input));
    FrameApplied(EMPTY_CARD, h[0]);
    FrameApplied(c1, h[1]);
    TextApplied(c1, h[2], input.uid);
    TextApplied(c2, h[3], input.name);
    NameApplied(c3, h[4], input);
    ApplyThrough(h, [EMPTY_CARD, c1, c1, c2, c3, c4]);
    UidReturned(input);
    assert c4.texts == map[UID := input.uid, FN := Returned(input.name)];
  }

  /** Lines that lead from each card to the next lead from the first to the last. */
  lemma {:induction false} ApplyThrough(fields: seq<Field>, cards: seq<Card>)
    requires |cards| == |fields| + 1
    requires forall i | 0 <= i < |fields| :: ApplyField(cards[i], fields[i]) == cards[i + 1]
    ensures ApplyFields(cards[0], fields) == cards[|fields|]
    decreases |fields|
  {
    if fields != [] {
      ApplyFirst(cards[0], fields);
      ApplyThrough(fields[1..], cards[1..]);
    }
  }

  /** The first half of the printed lines: head, nickname and the value lists. */
  function FrontFields(input: ContactInput): seq<Field> {
    TextField(NICKNAME, input.nickname)
    + (TypedFields(EMAIL, input.emails, true)
      + (TypedFields(TEL, input.telephones, true) + AddressFields(input.addresses)))
  }

  function BackFields(input: ContactInput): seq<Field> {
    TextField(ORG, input.organization)
    + (TextField(TITLE, input.title)
    + (TextField(ROLE, input.role)
    + (TypedFields(URL, input.urls, false)
    + (PhotoFields(Photos(input))
    + (TextField(NOTE, input.note)
    + BirthdayField(input))))))
  }

  lemma FieldsInHalves(input: ContactInput)
    ensures Fields(input) == HeadFields(input) + (FrontFields(input) + BackFields(input))
  {
    var n, e := TextField(NICKNAME, input.nickname), TypedFields(EMAIL, input.emails, true);
    var t, a, back := TypedFields(TEL, input.telephones, true), AddressFields(input.addresses), BackFields(input);
    ConcatAssociates(t, a, back);
    ConcatAssociates(e, t + a, back);
    ConcatAssociates(n, e + (t + a), back);
  }

  lemma ApplyFront(card: Card, input: ContactInput)
    requires !Refused(input) && FilledAddresses(input.addresses)
    ensures ApplyFields(card, FrontFields(input)) == Reached(SetText(card, NICKNAME, input.nickname), input)
  {
    var e, t, a := TypedFields(EMAIL, input.emails, true), TypedFields(TEL, input.telephones, true),
      AddressFields(input.addresses);
    var named := SetText(card, NICKNAME, input.nickname);
    var mailed := WithTyped(named, EMAIL, TypedBacks(EMAIL, input.emails));
    ApplyFieldsConcat(card, TextField(NICKNAME, input.nickname), e + (t + a));
    ApplyText(card, NICKNAME, input.nickname);
    ApplyFieldsConcat(named, e, t + a);
    ApplyTyped(named, EMAIL, input.emails);
    ApplyFieldsConcat(mailed, t, a);
    ApplyTyped(mailed, TEL, input.telephones);
    ApplyAddresses(WithTyped(mailed, TEL, TypedBacks(TEL, input.telephones)), input.addresses);
  }

  lemma ApplyBirthday(card: Card, input: ContactInput)
    ensures ApplyFields(card, BirthdayField(input)) == SetBirthday(card, input)
  {
    if BirthdayField(input) != [] {
      assert BirthdayField(input)[1..] == [];
    }
  }

  lemma ApplyBack(card: Card, input: ContactInput)
    requires card.photoUrls == [] && !Refused(input)
    ensures var placed :=
      SetText(SetText(SetText(card, ORG, input.organization), TITLE, input.title), ROLE, input.role);
      ApplyFields(card, BackFields(input))
      == SetBirthday(SetText(WithTyped(placed, URL, TypedBacks(URL, input.urls)).(photoUrls := Photos(input)), NOTE,
        input.note), input)
  {
    var b := BirthdayField(input);
    var n, p, u := TextField(NOTE, input.note), PhotoFields(Photos(input)), TypedFields(URL, input.urls, false);
    var r, t := TextField(ROLE, input.role), TextField(TITLE, input.title);
    var c1 := SetText(card, ORG, input.organization);
    var c2 := SetText(c1, TITLE, input.title);
    var c3 := SetText(c2, ROLE, input.role);
    var linked := WithTyped(c3, URL, TypedBacks(URL, input.urls));
    var c4 := linked.(photoUrls := Photos(input));
    ApplyFieldsConcat(card, TextField(ORG, input.organization), t + (r + (u + (p + (n + b)))));
    ApplyText(card, ORG, input.organization);
    ApplyFieldsConcat(c1, t, r + (u + (p + (n + b))));
    ApplyText(c1, TITLE, input.title);
    ApplyFieldsConcat(c2, r, u + (p + (n + b)));
    ApplyText(c2, ROLE, input.role);
    ApplyFieldsConcat(c3, u, p + (n + b));
    ApplyTyped(c3, URL, input.urls);
    ApplyFieldsConcat(linked, p, n + b);
    ApplyPhotos(linked, Photos(input));
    assert [] + Photos(input) == Photos(input);
    ApplyFieldsConcat(c4, n, b);
    ApplyText(c4, NOTE, input.note);
    ApplyBirthday(SetText(c4, NOTE, input.note), input);
  }

  /** All printed lines together make the expected card. */
  lemma ApplyAllFields(input: ContactInput)
    requires !Refused(input) && Shaped(input)
    ensures ApplyFields(EMPTY_CARD, Fields(input)) == Expected(input)
  {
    var head := HeadCard(input);
    FieldsInHalves(input);
    ApplyFieldsConcat(EMPTY_CARD, HeadFields(input), FrontFields(input) + BackFields(input));
    ApplyHead(input);
    ApplyFieldsConcat(head, FrontFields(input), BackFields(input));
    ApplyFront(head, input);
    ApplyBack(Reached(SetText(head, NICKNAME, input.nickname), input), input);
  }
}
