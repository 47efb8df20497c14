/**
 Contact objects: the lines `buildVCard` prints, what `parseVCard` makes of a
 body, and the lines it keeps because it does not understand them.
 */
module VCard {
  import opened JsString
  import opened Results
  import opened QuotedScan
  import LineFolding
  import TextEscape

  const DOT: Unit := 46

  // ---------- known properties ----------

  datatype Known =
    | VERSION | UID | FN | N | NICKNAME | EMAIL | TEL | ADR | ORG | TITLE | ROLE | URL | PHOTO | NOTE | BDAY | PRODID

  function KnownWord(k: Known): string {
    match k
    case VERSION => "VERSION"
    case UID => "UID"
    case FN => "FN"
    case N => "N"
    case NICKNAME => "NICKNAME"
    case EMAIL => "EMAIL"
    case TEL => "TEL"
    case ADR => "ADR"
    case ORG => "ORG"
    case TITLE => "TITLE"
    case ROLE => "ROLE"
    case URL => "URL"
    case PHOTO => "PHOTO"
    case NOTE => "NOTE"
    case BDAY => "BDAY"
    case PRODID => "PRODID"
  }

  lemma KnownWords(k: Known)
    ensures IsWord(KnownWord(k)) && '.' !in KnownWord(k)
  {
  }

  function KnownName(k: Known): Str {
    KnownWords(k);
    L(KnownWord(k))
  }

  lemma KnownWordsDiffer(j: Known, k: Known)
    requires IsWord(KnownWord(j)) && IsWord(KnownWord(k)) && j != k
    ensures Signature(KnownWord(j)) != Signature(KnownWord(k))
  {
  }

  lemma KnownNamesDiffer(j: Known, k: Known)
    requires j != k
    ensures KnownName(j) != KnownName(k)
  {
    KnownWords(j);
    KnownWords(k);
    KnownWordsDiffer(j, k);
    LiteralsDiffer(KnownWord(j), KnownWord(k));
  }

  lemma KnownNamesInjective()
    ensures forall j, k | KnownName(j) == KnownName(k) :: j == k
  {
    forall j, k | j != k ensures KnownName(j) != KnownName(k) {
      KnownNamesDiffer(j, k);
    }
  }

  /** Which known property a name stands for, if any. */
  function KnownOf(name: Str): (r: Option<Known>)
    ensures r.Some? ==> KnownName(r.value) == name
    ensures r.None? ==> forall k :: KnownName(k) != name
  {
    KnownNamesInjective();
    if k: Known :| KnownName(k) == name then Some(k) else None
  }

  lemma KnownOfName(k: Known)
    ensures KnownOf(KnownName(k)) == Some(k)
  {
    KnownNamesInjective();
  }

  lemma KnownNamePlain(k: Known)
    ensures PlainWord(KnownName(k)) && DOT !in KnownName(k)
  {
    KnownWords(k);
  }

  // ---------- content lines ----------

  datatype VLine = VLine(name: Str, params: map<Str, seq<Str>>, value: Str)

  function LowerAll(items: seq<Str>): seq<Str> {
    seq(|items|, i requires 0 <= i < |items| => Lower(items[i]))
  }

  /** A double quote removed at the start and one at the end. */
  function StripQuotes(s: Str): Str {
    var t := if s != [] && s[0] == DQUOTE then s[1..] else s;
    if t != [] && t[|t| - 1] == DQUOTE then t[..|t| - 1] else t
  }

  const TYPE: Str := L("TYPE")
  const VALUE: Str := L("VALUE")

  function AddSegment(params: map<Str, seq<Str>>, segment: Str): map<Str, seq<Str>> {
    match IndexOf(segment, EQUALS)
    case None =>
      params[TYPE := (if TYPE in params then params[TYPE] else []) + [Lower(segment)]]
    case Some(k) =>
      params[Upper(segment[..k]) := LowerAll(Split(StripQuotes(segment[k + 1..]), COMMA))]
  }

  function AddSegments(params: map<Str, seq<Str>>, segments: seq<Str>): map<Str, seq<Str>>
    decreases |segments|
  {
    if segments == [] then params else AddSegments(AddSegment(params, segments[0]), segments[1..])
  }

  /** The property name of a line's first segment: what follows its last dot. */
  function NameOf(segment: Str): Str {
    var parts := Split(segment, DOT);
    Upper(parts[|parts| - 1])
  }

  /** What `contentLine` makes of a line; `None` where it throws. */
  function ContentLine(line: Str): Option<VLine> {
    match UnquotedIndex(line, COLON, false)
    case None => None
    case Some(separator) =>
      if separator < 1 then None
      else
        var segments := Split(line[..separator], SEMICOLON);
        Some(VLine(NameOf(segments[0]), AddSegments(map[], segments[1..]), line[separator + 1..]))
  }

  method ParseContentLine(line: Str) returns (r: Option<VLine>)
    ensures r == ContentLine(line)
  {
    var separator := -1;
    var quoted := false;
    var index := 0;
    while index < |line|
      invariant 0 <= index <= |line|
      invariant separator == -1
      invariant UnquotedIndex(line, COLON, false) ==
        match UnquotedIndex(line[index..], COLON, quoted)
        case None => None
        case Some(k) => Some(index + k)
    {
      assert line[index..][1..] == line[index + 1..];
      if line[index] == DQUOTE {
        quoted := !quoted;
      }
      if line[index] == COLON && !quoted {
        separator := index;
        break;
      }
      index := index + 1;
    }
    if separator < 1 {
      return None;
    }
    var segments := Split(line[..separator], SEMICOLON);
    var rest := segments[1..];
    var params: map<Str, seq<Str>> := map[];
    for i := 0 to |rest|
      invariant AddSegments(params, rest[i..]) == AddSegments(map[], rest)
    {
      assert rest[i..][1..] == rest[i + 1..];
      params := AddSegment(params, rest[i]);
    }
    return Some(VLine(NameOf(segments[0]), params, line[separator + 1..]));
  }

  // ---------- reading ----------

  /** A value with its parameters; no types are given where the list is empty. */
  datatype TypedRead = TypedRead(value: Str, types: seq<Str>, preferred: bool)

  /** The seven parts of an address, absent where they are empty. */
  datatype AddressRead = AddressRead(parts: seq<Option<Str>>, types: seq<Str>, preferred: bool)

  /** The family and the given name; additional names, prefixes and suffixes as lists. */
  datatype NameRead = NameRead(
    family: Option<Str>, given: Option<Str>,
    additional: Option<seq<Str>>, prefixes: Option<seq<Str>>, suffixes: Option<seq<Str>>)

  const NO_NAME := NameRead(None, None, None, None, None)

  /**
   What the parser has collected. `texts` holds UID, FN, NICKNAME, TITLE, ROLE,
   NOTE, ORG and BDAY; `name` what N says; `typed` the values of EMAIL,
   TEL and URL; `preserved` the raw lines kept.
   */
  datatype Card = Card(
    version: Option<Str>, texts: map<Known, Str>, name: NameRead, photoUrls: seq<Str>,
    typed: map<Known, seq<TypedRead>>, addresses: seq<AddressRead>, preserved: seq<Str>)

  const EMPTY_CARD := Card(None, map[], NO_NAME, [], map[], [], [])

  const V3: Str := L("3.0")
  const V4: Str := L("4.0")
  const URI: Str := L("uri")

  const PREF: Str := L("PREF")
  const PREF_TYPE: Str := L("pref")
  const MAILTO: Str := L("mailto:")
  const TEL_SCHEME: Str := L("tel:")

  /** `value.replace(/^prefix/i, "")` for a prefix of small letters and a colon. */
  predicate StartsWith(value: Str, prefix: Str) {
    |value| >= |prefix| && Lower(value[..|prefix|]) == prefix
  }

  function StripPrefix(value: Str, prefix: Str): Str {
    if StartsWith(value, prefix) then value[|prefix|..] else value
  }

  function WithoutPref(types: seq<Str>): seq<Str> {
    if types == [] then [] else (if types[0] == PREF_TYPE then [] else [types[0]]) + WithoutPref(types[1..])
  }

  function TypesOf(params: map<Str, seq<Str>>): seq<Str> {
    if TYPE in params then WithoutPref(params[TYPE]) else []
  }

  predicate IsPreferred(params: map<Str, seq<Str>>) {
    || (PREF in params && params[PREF] != [] && params[PREF][0] == L("1"))
    || (TYPE in params && PREF_TYPE in params[TYPE])
  }

  /** `typedValue` */
  function ReadTyped(value: Str, params: map<Str, seq<Str>>): TypedRead {
    TypedRead(TextEscape.VCardUnescape(StripPrefix(value, MAILTO)), TypesOf(params), IsPreferred(params))
  }

  function NamesOf(text: Str): Option<seq<Str>> {
    if text == [] then None else Some(TextEscape.SplitFrom(text, COMMA, [], false))
  }

  /** A list that is empty or missing leaves the one read before. */
  function NamesAt(parts: seq<Str>, i: nat, before: Option<seq<Str>>): Option<seq<Str>> {
    if i < |parts| && parts[i] != [] then NamesOf(parts[i]) else before
  }

  function ReadName(before: NameRead, parts: seq<Str>): NameRead {
    NameRead(if |parts| > 0 then Some(parts[0]) else None, if |parts| > 1 then Some(parts[1]) else None,
             NamesAt(parts, 2, before.additional), NamesAt(parts, 3, before.prefixes),
               NamesAt(parts, 4, before.suffixes))
  }

  function PartAt(parts: seq<Str>, i: nat): Option<Str> {
    if i < |parts| && parts[i] != [] then Some(parts[i]) else None
  }

  function SevenParts(parts: seq<Str>): seq<Option<Str>> {
    seq(7, i requires 0 <= i < 7 => PartAt(parts, i))
  }

  function ReadAddress(value: Str, params: map<Str, seq<Str>>): AddressRead {
    AddressRead(SevenParts(MapUnescape(TextEscape.SplitFrom(value, SEMICOLON, [], false))), TypesOf(params),
      IsPreferred(params))
  }

  predicate IsUriPhoto(line: VLine) {
    || (VALUE in line.params && URI in line.params[VALUE])
    || L("http:") <= Lower(line.value)
    || L("https:") <= Lower(line.value)
  }

  function MapUnescape(parts: seq<Str>): (r: seq<Str>)
    ensures |r| == |parts|
    ensures forall i | 0 <= i < |parts| :: r[i] == TextEscape.VCardUnescape(parts[i])
  {
    seq(|parts|, i requires 0 <= i < |parts| => TextEscape.VCardUnescape(parts[i]))
  }

  /** Whether the parser keeps a line it has read as it stands. */
  predicate IsKeptRaw(line: VLine) {
    match KnownOf(line.name)
    case None => true
    case Some(VERSION) => line.value != V3 && line.value != V4
    case Some(PHOTO) => !IsUriPhoto(line)
    case Some(_) => false
  }

  /** One turn of the parser's switch. */
  function Apply(card: Card, raw: Str, line: VLine): Card {
    if IsKeptRaw(line) then card.(preserved := card.preserved + [raw])
    else ApplyKnown(card, KnownOf(line.name).value, line.params, line.value)
  }

  function TypedOf(card: Card, k: Known): seq<TypedRead> {
    if k in card.typed then card.typed[k] else []
  }

  function WithTyped(card: Card, k: Known, values: seq<TypedRead>): Card {
    if values == [] then card else card.(typed := card.typed[k := TypedOf(card, k) + values])
  }

  function WithAddresses(card: Card, more: seq<AddressRead>): Card {
    card.(addresses := card.addresses + more)
  }

  function ApplyKnown(card: Card, k: Known, params: map<Str, seq<Str>>, value: Str): Card {
    match k
    case EMAIL => WithTyped(card, k, [ReadTyped(value, params)])
    case TEL => WithTyped(card, k, [ReadTyped(StripPrefix(value, TEL_SCHEME), params)])
    case URL => WithTyped(card, k, [ReadTyped(value, params)])
    case ADR => WithAddresses(card, [ReadAddress(value, params)])
    case VERSION => card.(version := Some(value))
    case N => card.(name := ReadName(card.name, MapUnescape(TextEscape.SplitFrom(value, SEMICOLON, [], false))))
    case ORG => card.(texts :=
      card.texts[ORG := TextEscape.VCardUnescape(TextEscape.SplitFrom(value, SEMICOLON, [], false)[0])])
    case BDAY => card.(texts := card.texts[BDAY := value])
    case PHOTO => card.(photoUrls := card.photoUrls + [value])
    case UID => WithText(card, k, value)
    case FN => WithText(card, k, value)
    case NICKNAME => WithText(card, k, value)
    case TITLE => WithText(card, k, value)
    case ROLE => WithText(card, k, value)
    case NOTE => WithText(card, k, value)
    case PRODID => card
  }

  function WithText(card: Card, k: Known, value: Str): Card {
    card.(texts := card.texts[k := TextEscape.VCardUnescape(value)])
  }

  /** A raw line consumed; `None` where its content line is invalid. */
  function Consume(card: Card, raw: Str): Option<Card> {
    if raw == [] then Some(card)
    else
      var line := ContentLine(raw);
      if line.None? then None else Some(Apply(card, raw, line.value))
  }

  function ConsumeAll(card: Card, raws: seq<Str>): Option<Card>
    decreases |raws|
  {
    if raws == [] then Some(card)
    else
      var next := Consume(card, raws[0]);
      if next.None? then None else ConsumeAll(next.value, raws[1..])
  }

  function TrimFront(lines: seq<Str>): seq<Str> {
    if lines != [] && lines[0] == [] then TrimFront(lines[1..]) else lines
  }

  function TrimBack(lines: seq<Str>): seq<Str> {
    if lines != [] && lines[|lines| - 1] == [] then TrimBack(lines[..|lines| - 1]) else lines
  }

  const BEGIN: Str := L("BEGIN:VCARD")
  const END: Str := L("END:VCARD")

  function TextOf(card: Card, k: Known): Str {
    if k in card.texts then card.texts[k] else []
  }

  function Finish(card: Option<Card>): Result<Card> {
    if card.None? then Err("invalid vCard content line")
    else if card.value.version.None? || TextOf(card.value, UID) == [] || TextOf(card.value, FN) == [] then
      Err("vCard requires VERSION, UID, and FN")
    else Ok(card.value)
  }

  function ReadLines(lines: seq<Str>): Result<Card> {
    if lines == [] || Upper(lines[0]) != BEGIN then Err("not a vCard")
    else if Upper(lines[|lines| - 1]) != END then Err("unterminated vCard")
    else Finish(ConsumeAll(EMPTY_CARD, if |lines| == 1 then [] else lines[1..|lines| - 1]))
  }

  /** What `parseVCard` returns for a body (the fields modelled here). */
  function Reading(body: Str): Result<Card> {
    ReadLines(TrimBack(TrimFront(LineFolding.VCardUnfold(body))))
  }

  /** The lines without the empty ones at either end. */
  method TrimLines(all: seq<Str>) returns (lines: seq<Str>)
    ensures lines == TrimBack(TrimFront(all))
  {
    var first := 0;
    var last := |all| - 1;
    while first <= last && all[first] == []
      invariant 0 <= first <= |all| && last == |all| - 1
      invariant TrimFront(all[first..]) == TrimFront(all)
    {
      first := first + 1;
    }
    assert TrimFront(all) == all[first..last + 1];
    while last >= first && all[last] == []
      invariant first - 1 <= last < |all| && first <= |all|
      invariant TrimBack(all[first..last + 1]) == TrimBack(TrimFront(all))
      decreases last
    {
      assert all[first..last + 1][..last - first] == all[first..last];
      last := last - 1;
    }
    lines := all[first..last + 1];
  }

  method ParseVCard(body: Str) returns (r: Result<Card>)
    ensures r == Reading(body)
  {
    var all := LineFolding.Unfold(body);
    var lines := TrimLines(all);
    assert Reading(body) == ReadLines(lines);
    if lines == [] || Upper(lines[0]) != BEGIN {
      return Err("not a vCard");
    }
    if Upper(lines[|lines| - 1]) != END {
      return Err("unterminated vCard");
    }
    var inner := if |lines| == 1 then [] else lines[1..|lines| - 1];
    r := CollectCard(inner);
  }

  /** The parser's loop over the lines between BEGIN and END. */
  method CollectCard(raws: seq<Str>) returns (r: Result<Card>)
    ensures r == Finish(ConsumeAll(EMPTY_CARD, raws))
  {
    var card := EMPTY_CARD;
    for i := 0 to |raws|
      invariant ConsumeAll(card, raws[i..]) == ConsumeAll(EMPTY_CARD, raws)
    {
      assert raws[i..][1..] == raws[i + 1..];
      if raws[i] == [] {
        continue;
      }
      var line := ParseContentLine(raws[i]);
      if line.None? {
        return Err("invalid vCard content line");
      }
      card := Apply(card, raws[i], line.value);
    }
    if card.version.None? || TextOf(card, UID) == [] || TextOf(card, FN) == [] {
      return Err("vCard requires VERSION, UID, and FN");
    }
    return Ok(card);
  }

  // ---------- printing ----------

  datatype TypedValue = TypedValue(value: Str, types: seq<Str>, preferred: bool)
  datatype Address = Address(parts: seq<Str>, types: seq<Str>, preferred: bool)

  /** A missing family or given name is the empty text, a missing list of names the empty list. */
  datatype ContactInput = ContactInput(
    uid: Str, name: Str, family: Str, given: Str, additional: seq<Str>, prefixes: seq<Str>, suffixes: seq<Str>,
    nickname: Option<Str>,
    emails: seq<TypedValue>, telephones: seq<TypedValue>, addresses: seq<Address>,
    organization: Option<Str>, title: Option<Str>, role: Option<Str>,
    urls: seq<TypedValue>, photoUrls: Option<seq<Str>>, note: Option<Str>, birthday: Option<Str>)

  /** `/^[A-Za-z0-9-]+$/` */
  predicate ValidType(t: Str) {
    t != [] && forall i | 0 <= i < |t| :: 65 <= t[i] <= 90 || 97 <= t[i] <= 122 || 48 <= t[i] <= 57 || t[i] == 45
  }

  predicate ValidTypes(types: seq<Str>) {
    forall i | 0 <= i < |types| :: ValidType(types[i])
  }

  predicate ValidValues(values: seq<TypedValue>) {
    forall i | 0 <= i < |values| :: ValidTypes(values[i].types)
  }

  predicate OneLineValues(values: seq<TypedValue>) {
    forall i | 0 <= i < |values| :: OneLine(values[i].value)
  }

  /** `params`: the TYPE and PREF parameters of a value. */
  function Params(types: seq<Str>, preferred: bool): Str {
    (if types != [] then L(";TYPE=") + Join(LowerAll(types), [COMMA]) else [])
    + (if preferred then L(";PREF=1") else [])
  }

  /** Inputs for which printing throws. */
  predicate Refused(input: ContactInput) {
    UnsafeUid(input.uid) || !ReachFits(input) || !LinksFit(input) || !BirthdayFits(input)
  }

  /** `/[\r\n/%\\]/` */
  predicate UnsafeUid(uid: Str) {
    exists i :: 0 <= i < |uid| && uid[i] in {CR, LF, SLASH, PERCENT, BACKSLASH}
  }

  predicate ReachFits(input: ContactInput) {
    && ValidValues(input.emails) && ValidValues(input.telephones)
    && forall i | 0 <= i < |input.addresses| :: ValidTypes(input.addresses[i].types)
  }

  predicate LinksFit(input: ContactInput) {
    ValidValues(input.urls) && OneLineValues(input.urls) && AllOneLine(Photos(input))
  }

  predicate BirthdayFits(input: ContactInput) {
    input.birthday.Some? ==> OneLine(input.birthday.value)
  }

  /** A printed line of a known property. */
  datatype Field = Field(known: Known, params: Str, value: Str) {
    function Text(): Str {
      KnownName(known) + params + [COLON] + value
    }
  }

  function TextField(k: Known, text: Option<Str>): seq<Field> {
    if text.Some? && text.value != [] then [Field(k, [], TextEscape.VCardEscape(text.value))] else []
  }

  function TypedField(k: Known, v: TypedValue, escape: bool): Field {
    Field(k, Params(v.types, v.preferred), if escape then TextEscape.VCardEscape(v.value) else v.value)
  }

  function TypedFields(k: Known, values: seq<TypedValue>, escape: bool): (r: seq<Field>)
    ensures |r| == |values|
    ensures forall i | 0 <= i < |values| :: r[i] == TypedField(k, values[i], escape)
  {
    seq(|values|, i requires 0 <= i < |values| => TypedField(k, values[i], escape))
  }

  function AddressField(a: Address): Field {
    Field(ADR, Params(a.types, a.preferred), Join(TextEscape.MapEscaped(a.parts), [SEMICOLON]))
  }

  function AddressFields(addresses: seq<Address>): (r: seq<Field>)
    ensures |r| == |addresses|
    ensures forall i | 0 <= i < |addresses| :: r[i] == AddressField(addresses[i])
  {
    seq(|addresses|, i requires 0 <= i < |addresses| => AddressField(addresses[i]))
  }

  function Photos(input: ContactInput): seq<Str> {
    if input.photoUrls.Some? then input.photoUrls.value else []
  }

  function PhotoFields(urls: seq<Str>): (r: seq<Field>)
    ensures |r| == |urls|
    ensures forall i | 0 <= i < |urls| :: r[i] == Field(PHOTO, L(";VALUE=uri"), urls[i])
  {
    seq(|urls|, i requires 0 <= i < |urls| => Field(PHOTO, L(";VALUE=uri"), urls[i]))
  }

  /** The five components of N. */
  function Components(input: ContactInput): seq<Str> {
    [input.family, input.given, Join(input.additional, [COMMA]), Join(input.prefixes, [COMMA]),
      Join(input.suffixes, [COMMA])]
  }

  function HeadFields(input: ContactInput): seq<Field> {
    [Field(VERSION, [], V4), Field(PRODID, [], L("-//Sockethub//CardDAV//EN")),
     Field(UID, [], TextEscape.VCardEscape(input.uid)), Field(FN, [], TextEscape.VCardEscape(input.name)),
     Field(N, [], Join(TextEscape.MapEscaped(Components(input)), [SEMICOLON]))]
  }

  function BirthdayField(input: ContactInput): seq<Field> {
    if input.birthday.Some? && input.birthday.value != [] then [Field(BDAY, [], input.birthday.value)] else []
  }

  /** The lines printed from the contact itself, in order. */
  function Fields(input: ContactInput): seq<Field> {
    HeadFields(input)
    + (TextField(NICKNAME, input.nickname)
    + (TypedFields(EMAIL, input.emails, true)
    + (TypedFields(TEL, input.telephones, true)
    + (AddressFields(input.addresses)
    + (TextField(ORG, input.organization)
    + (TextField(TITLE, input.title)
    + (TextField(ROLE, input.role)
    + (TypedFields(URL, input.urls, false)
    + (PhotoFields(Photos(input))
    + (TextField(NOTE, input.note)
    + BirthdayField(input)))))))))))
  }

  function Texts(fields: seq<Field>): (r: seq<Str>)
    ensures |r| == |fields|
    ensures forall i | 0 <= i < |fields| :: r[i] == fields[i].Text()
  {
    seq(|fields|, i requires 0 <= i < |fields| => fields[i].Text())
  }

  /** Whether a preserved line is printed again: unknown ones always, photos unless they are replaced. */
  predicate PrintsAgain(raw: Str, replacePhotos: bool) {
    ContentLine(raw).Some? &&
    var k := KnownOf(ContentLine(raw).value.name);
    k.None? || (k == Some(PHOTO) && !replacePhotos)
  }

  function Kept(preserved: seq<Str>, replacePhotos: bool): seq<Str> {
    if preserved == [] then []
    else (if PrintsAgain(preserved[0], replacePhotos) then [preserved[0]] else []) + Kept(preserved[1..], replacePhotos)
  }

  predicate ValidRaw(raw: Str) {
    OneLine(raw) && ContentLine(raw).Some?
  }

  predicate ValidRaws(preserved: seq<Str>) {
    forall i | 0 <= i < |preserved| :: ValidRaw(preserved[i])
  }

  function CardLines(input: ContactInput, preserved: seq<Str>): seq<Str> {
    [BEGIN] + (Texts(Fields(input)) + (Kept(preserved, input.photoUrls.Some?) + [END]))
  }

  /** The body `buildVCard` returns, or the error it throws. */
  function Printing(input: ContactInput, preserved: seq<Str>): Result<Str> {
    if Refused(input) then Err("invalid vCard input")
    else if !ValidRaws(preserved) then Err("invalid preserved vCard property")
    else Ok(LineFolding.VCardBody(CardLines(input, preserved)))
  }

  /** The lines of a value list, and whether the checks made while printing them succeed. */
  method PrintTyped(k: Known, values: seq<TypedValue>, escape: bool) returns (ok: bool, r: seq<Str>)
    ensures ok <==> ValidValues(values) && (escape || OneLineValues(values))
    ensures ok ==> r == Texts(TypedFields(k, values, escape))
  {
    AcceptedValues(values, escape);
    ghost var fields, all := TypedFields(k, values, escape), AllAccepted(values, escape);
    r := [];
    assert values[0..] == values;
    for i := 0 to |values|
      invariant AllAccepted(values[i..], escape) <==> all
      invariant r == Texts(fields[..i])
    {
      AcceptedFrom(values, i, escape);
      if !Accepted(values[i], escape) {
        return false, r;
      }
      var text := TypedField(k, values[i], escape).Text();
      assert fields[i].Text() == text;
      TextsNext(fields[..i], fields[i], fields[..i + 1]);
      r := r + [text];
    }
    assert fields[..|values|] == fields;
    ok := true;
  }

  /** The checks made while a value is printed. */
  predicate Accepted(v: TypedValue, escape: bool) {
    ValidTypes(v.types) && (escape || OneLine(v.value))
  }

  predicate AllAccepted(values: seq<TypedValue>, escape: bool) {
    forall i | 0 <= i < |values| :: Accepted(values[i], escape)
  }

  lemma AcceptedFrom(values: seq<TypedValue>, i: nat, escape: bool)
    requires i < |values|
    ensures AllAccepted(values[i..], escape) <==> Accepted(values[i], escape) && AllAccepted(values[i + 1..], escape)
  {
    assert values[i..] == [values[i]] + values[i + 1..];
  }

  lemma AcceptedValues(values: seq<TypedValue>, escape: bool)
    ensures AllAccepted(values, escape) <==> ValidValues(values) && (escape || OneLineValues(values))
  {
    assert forall i | 0 <= i < |values| ::
      Accepted(values[i], escape) <==> ValidTypes(values[i].types) && (escape || OneLine(values[i].value));
  }

  lemma TextsNext(fields: seq<Field>, field: Field, more: seq<Field>)
    requires more == fields + [field]
    ensures Texts(more) == Texts(fields) + [field.Text()]
  {
  }

  lemma TextsConcat(a: seq<Field>, b: seq<Field>)
    ensures Texts(a + b) == Texts(a) + Texts(b)
  {
  }

  method PrintAddresses(addresses: seq<Address>) returns (ok: bool, r: seq<Str>)
    ensures ok <==> forall i | 0 <= i < |addresses| :: ValidTypes(addresses[i].types)
    ensures ok ==> r == Texts(AddressFields(addresses))
  {
    r := [];
    for i := 0 to |addresses|
      invariant forall j | 0 <= j < i :: ValidTypes(addresses[j].types)
      invariant r == Texts(AddressFields(addresses[..i]))
    {
      var a := addresses[i];
      if !ValidTypes(a.types) {
        return false, r;
      }
      var field := AddressField(a);
      TextsNext(AddressFields(addresses[..i]), field, AddressFields(addresses[..i + 1]));
      r := r + [field.Text()];
    }
    assert addresses[..|addresses|] == addresses;
    ok := true;
  }

  method PrintPhotos(urls: seq<Str>) returns (ok: bool, r: seq<Str>)
    ensures ok <==> AllOneLine(urls)
    ensures ok ==> r == Texts(PhotoFields(urls))
  {
    r := [];
    for i := 0 to |urls|
      invariant forall j | 0 <= j < i :: OneLine(urls[j])
      invariant r == Texts(PhotoFields(urls[..i]))
    {
      if !OneLine(urls[i]) {
        return false, r;
      }
      var field := Field(PHOTO, L(";VALUE=uri"), urls[i]);
      TextsNext(PhotoFields(urls[..i]), field, PhotoFields(urls[..i + 1]));
      r := r + [field.Text()];
    }
    assert urls[..|urls|] == urls;
    ok := true;
  }

  method CheckPreserved(raw: Str, replacePhotos: bool) returns (valid: bool, again: bool)
    ensures valid <==> ValidRaw(raw)
    ensures valid ==> (again <==> PrintsAgain(raw, replacePhotos))
  {
    if !OneLine(raw) {
      return false, false;
    }
    var line := ParseContentLine(raw);
    if line.None? {
      return false, false;
    }
    var k := KnownOf(line.value.name);
    return true, k.None? || (k == Some(PHOTO) && !replacePhotos);
  }

  lemma KeptFrom(preserved: seq<Str>, i: nat, replacePhotos: bool)
    requires i < |preserved|
    ensures Kept(preserved[i..], replacePhotos)
         == (if PrintsAgain(preserved[i], replacePhotos) then [preserved[i]] else [])
           + Kept(preserved[i + 1..], replacePhotos)
    ensures ValidRaws(preserved[i..]) <==> ValidRaw(preserved[i]) && ValidRaws(preserved[i + 1..])
  {
    assert preserved[i..][1..] == preserved[i + 1..];
    assert preserved[i..] == [preserved[i]] + preserved[i + 1..];
  }

  method PrintPreserved(preserved: seq<Str>, replacePhotos: bool) returns (ok: bool, r: seq<Str>)
    ensures ok <==> ValidRaws(preserved)
    ensures ok ==> r == Kept(preserved, replacePhotos)
  {
    r := [];
    ghost var kept, valid := Kept(preserved, replacePhotos), ValidRaws(preserved);
    assert preserved[0..] == preserved;
    for i := 0 to |preserved|
      invariant ValidRaws(preserved[i..]) <==> valid
      invariant r + Kept(preserved[i..], replacePhotos) == kept
    {
      KeptFrom(preserved, i, replacePhotos);
      var fits, again := CheckPreserved(preserved[i], replacePhotos);
      if !fits {
        return false, r;
      }
      ConcatAssociates(r, if again then [preserved[i]] else [], Kept(preserved[i + 1..], replacePhotos));
      r := r + if again then [preserved[i]] else [];
    }
    assert r + [] == r;
    ok := true;
  }

  /** The folds and the final join of `buildVCard`. */
  method FoldLines(lines: seq<Str>) returns (body: Str)
    ensures body == LineFolding.VCardBody(lines)
  {
    var folded: seq<Str> := [];
    for i := 0 to |lines|
      invariant folded == LineFolding.MapVCardFold(lines[..i])
    {
      var line := LineFolding.Fold(lines[i]);
      folded := folded + [line];
    }
    assert lines[..|lines|] == lines;
    body := Join(folded, CRLF) + CRLF;
  }

  /** Mail addresses, telephones and postal addresses after the lines printed so far. */
  method PrintReach(input: ContactInput, front: seq<Str>) returns (ok: bool, lines: seq<Str>)
    ensures ok <==> ReachFits(input)
    ensures ok ==> lines == front + Texts(TypedFields(EMAIL, input.emails, true))
                            + Texts(TypedFields(TEL, input.telephones, true)) + Texts(AddressFields(input.addresses))
  {
    var more;
    lines := front;
    ok, more := PrintTyped(EMAIL, input.emails, true);
    if !ok { return; }
    lines := lines + more;
    ok, more := PrintTyped(TEL, input.telephones, true);
    if !ok { return; }
    lines := lines + more;
    ok, more := PrintAddresses(input.addresses);
    if !ok { return; }
    lines := lines + more;
  }

  /** URLs and photo URLs after the lines printed so far. */
  method PrintLinks(input: ContactInput, front: seq<Str>) returns (ok: bool, lines: seq<Str>)
    ensures ok <==> LinksFit(input)
    ensures ok ==> lines == front + Texts(TypedFields(URL, input.urls, false)) + Texts(PhotoFields(Photos(input)))
  {
    var more;
    lines := front;
    ok, more := PrintTyped(URL, input.urls, false);
    if !ok { return; }
    lines := lines + more;
    ok, more := PrintPhotos(Photos(input));
    if !ok { return; }
    lines := lines + more;
  }

  /** Note and birthday after the lines printed so far. */
  method PrintEnd(input: ContactInput, front: seq<Str>) returns (ok: bool, lines: seq<Str>)
    ensures ok <==> BirthdayFits(input)
    ensures ok ==> lines == front + Texts(TextField(NOTE, input.note)) + Texts(BirthdayField(input))
  {
    lines := front + Texts(TextField(NOTE, input.note));
    if input.birthday.Some? && !OneLine(input.birthday.value) {
      return false, lines;
    }
    lines := lines + Texts(BirthdayField(input));
    ok := true;
  }

  /** The lines of `buildVCard` before the preserved ones. */
  method PrintFields(input: ContactInput) returns (ok: bool, lines: seq<Str>)
    ensures ok <==> !Refused(input)
    ensures ok ==> lines == [BEGIN] + Texts(Fields(input))
  {
    if UnsafeUid(input.uid) {
      return false, [];
    }
    lines := [BEGIN] + Texts(HeadFields(input));
    lines := lines + Texts(TextField(NICKNAME, input.nickname));
    ok, lines := PrintReach(input, lines);
    if !ok { return; }
    lines := lines + Texts(TextField(ORG, input.organization));
    lines := lines + Texts(TextField(TITLE, input.title));
    lines := lines + Texts(TextField(ROLE, input.role));
    ok, lines := PrintLinks(input, lines);
    if !ok { return; }
    ok, lines := PrintEnd(input, lines);
    LinesSoFar(input);
  }

  method BuildVCard(input: ContactInput, preserved: seq<Str>) returns (r: Result<Str>)
    ensures r == Printing(input, preserved)
  {
    var ok, lines := PrintFields(input);
    if !ok { return Err("invalid vCard input"); }
    var more;
    ok, more := PrintPreserved(preserved, input.photoUrls.Some?);
    if !ok { return Err("invalid preserved vCard property"); }
    ConcatAssociates(Texts(Fields(input)), more, [END]);
    LeftNested([BEGIN], Texts(Fields(input)), more, [END]);
    var body := FoldLines(lines + more + [END]);
    return Ok(body);
  }

  lemma LinesSoFar(input: ContactInput)
    ensures [BEGIN] + Texts(Fields(input)) ==
      [BEGIN] + Texts(HeadFields(input)) + Texts(TextField(NICKNAME, input.nickname))
      + Texts(TypedFields(EMAIL, input.emails, true)) + Texts(TypedFields(TEL, input.telephones, true))
      + Texts(AddressFields(input.addresses)) + Texts(TextField(ORG, input.organization))
      + Texts(TextField(TITLE, input.title)) + Texts(TextField(ROLE, input.role))
      + Texts(TypedFields(URL, input.urls, false)) + Texts(PhotoFields(Photos(input)))
      + Texts(TextField(NOTE, input.note)) + Texts(BirthdayField(input))
  {
    var b, n, p := BirthdayField(input), TextField(NOTE, input.note), PhotoFields(Photos(input));
    var u, r, t := TypedFields(URL, input.urls, false), TextField(ROLE, input.role), TextField(TITLE, input.title);
    var o, a := TextField(ORG, input.organization), AddressFields(input.addresses);
    var l, e := TypedFields(TEL, input.telephones, true), TypedFields(EMAIL, input.emails, true);
    var k, h := TextField(NICKNAME, input.nickname), HeadFields(input);
    TextsOfTail(u, p, n, b);
    TextsOfTail(o, t, r, u + (p + (n + b)));
    TextsOfTail(e, l, a, o + (t + (r + (u + (p + (n + b))))));
    TextsConcat(k, e + (l + (a + (o + (t + (r + (u + (p + (n + b)))))))));
    TextsConcat(h, k + (e + (l + (a + (o + (t + (r + (u + (p + (n + b))))))))));
    LeftNested([BEGIN], Texts(h), Texts(k), Texts(e) + (Texts(l) + (Texts(a) + (Texts(o) + (Texts(t) + (Texts(r)
      + (Texts(u) + (Texts(p) + (Texts(n) + Texts(b))))))))));
    var front := [BEGIN] + Texts(h) + Texts(k);
    LeftNested(front, Texts(e), Texts(l), Texts(a) + (Texts(o) + (Texts(t) + (Texts(r)
      + (Texts(u) + (Texts(p) + (Texts(n) + Texts(b))))))));
    var middle := front + Texts(e) + Texts(l);
    LeftNested(middle, Texts(a), Texts(o), Texts(t) + (Texts(r) + (Texts(u) + (Texts(p) + (Texts(n) + Texts(b))))));
    var late := middle + Texts(a) + Texts(o);
    LeftNested(late, Texts(t), Texts(r), Texts(u) + (Texts(p) + (Texts(n) + Texts(b))));
    LeftNested(late + Texts(t) + Texts(r), Texts(u), Texts(p), Texts(n) + Texts(b));
    ConcatAssociates(late + Texts(t) + Texts(r) + Texts(u) + Texts(p), Texts(n), Texts(b));
  }

  lemma TextsOfTail(a: seq<Field>, b: seq<Field>, c: seq<Field>, d: seq<Field>)
    ensures Texts(a + (b + (c + d))) == Texts(a) + (Texts(b) + (Texts(c) + Texts(d)))
  {
    TextsConcat(c, d);
    TextsConcat(b, c + d);
    TextsConcat(a, b + (c + d));
  }
}
