/**
 iCalendar content lines: parameter values encoded with carets (section 3 of
 RFC 6868), quote-aware splitting, and the ORGANIZER and ATTENDEE lines.
 */
module ICalLine {
  import opened JsString
  import opened Results
  import opened QuotedScan
  import TextEscape

  // ---------- parameter values ----------

  /** `/[\r\n]/g` replaced by `rep`. */
  function ReplaceNewlines(s: Str, rep: Str): Str {
    if s == [] then []
    else (if s[0] == CR || s[0] == LF then rep else [s[0]]) + ReplaceNewlines(s[1..], rep)
  }

  function QuotePass(s: Str): Str {
    ReplaceAll(ReplaceNewlines(s, [CARET, LOWER_N]), [DQUOTE], [CARET, APOSTROPHE])
  }

  /** The text `encodeParameter` builds before it decides about quotes. */
  function CaretEncode(s: Str): Str {
    QuotePass(TextEscape.DoubleThenCrlf(s, CARET))
  }

  predicate NeedsQuotes(s: Str) {
    exists i :: 0 <= i < |s| && (s[i] == COMMA || s[i] == COLON || s[i] == SEMICOLON || IsSpace(s[i]))
  }

  function EncodeParameter(value: Str): Str {
    var encoded := CaretEncode(value);
    if NeedsQuotes(encoded) then [DQUOTE] + encoded + [DQUOTE] else encoded
  }

  /** Caret pairs read back: `^^`, `^'`, `^n` and `^N`. */
  function CaretDecode(s: Str): Str {
    if s == [] then []
    else if s[0] == CARET && |s| > 1 && s[1] == CARET then [CARET] + CaretDecode(s[2..])
    else if s[0] == CARET && |s| > 1 && s[1] == APOSTROPHE then [DQUOTE] + CaretDecode(s[2..])
    else if s[0] == CARET && |s| > 1 && TextEscape.IsN(s[1]) then [LF] + CaretDecode(s[2..])
    else [s[0]] + CaretDecode(s[1..])
  }

  function DecodeParameter(value: Str): Str {
    if value != [] && value[0] == DQUOTE && value[|value| - 1] == DQUOTE then
      CaretDecode(if |value| == 1 then [] else value[1..|value| - 1])
    else CaretDecode(value)
  }

  function CaretUnit(u: Unit): (e: Str)
    ensures DQUOTE !in e && OneLine(e)
  {
    if u == CR || u == LF then [CARET, LOWER_N]
    else if u == CARET then [CARET, CARET]
    else if u == DQUOTE then [CARET, APOSTROPHE]
    else [u]
  }

  /** The same encoding in one left-to-right pass. */
  function Careted(s: Str): (e: Str)
    ensures DQUOTE !in e && OneLine(e)
    ensures e == [] <==> s == []
  {
    if s == [] then []
    else if StartsWithCrlf(s) then [CARET, LOWER_N] + Careted(s[2..])
    else CaretUnit(s[0]) + Careted(s[1..])
  }

  lemma {:induction false} ReplaceNewlinesConcat(a: Str, b: Str, rep: Str)
    ensures ReplaceNewlines(a + b, rep) == ReplaceNewlines(a, rep) + ReplaceNewlines(b, rep)
  {
    if a == [] {
      assert a + b == b;
    } else {
      var head := if a[0] == CR || a[0] == LF then rep else [a[0]];
      ReplaceNewlinesConcat(a[1..], b, rep);
      assert (a + b)[1..] == a[1..] + b;
      ConcatAssociates(head, ReplaceNewlines(a[1..], rep), ReplaceNewlines(b, rep));
    }
  }

  lemma QuotePassConcat(a: Str, b: Str)
    ensures QuotePass(a + b) == QuotePass(a) + QuotePass(b)
  {
    var n := [CARET, LOWER_N];
    ReplaceNewlinesConcat(a, b, n);
    ReplaceUnitConcat(ReplaceNewlines(a, n), ReplaceNewlines(b, n), DQUOTE, [CARET, APOSTROPHE]);
  }

  lemma QuotePassUnit(u: Unit)
    ensures QuotePass([u]) == if u == CARET then [u] else CaretUnit(u)
  {
    var n := [CARET, LOWER_N];
    assert ReplaceNewlines([u], n) == (if u == CR || u == LF then n else [u]) by {
      assert ReplaceNewlines([u][1..], n) == [];
    }
    if u == CR || u == LF {
      TextEscape.ReplacePair(CARET, LOWER_N, DQUOTE, [CARET, APOSTROPHE]);
    } else {
      TextEscape.ReplaceSingle(u, DQUOTE, [CARET, APOSTROPHE]);
    }
  }

  lemma {:induction false} CaretEncodeIsOnePass(s: Str)
    ensures CaretEncode(s) == Careted(s)
  {
    if s == [] {
    } else if StartsWithCrlf(s) {
      CaretEncodeIsOnePass(s[2..]);
      TextEscape.DoubleThenCrlfAtCrlf(s, CARET);
      QuotePassConcat([CARET, LOWER_N], TextEscape.DoubleThenCrlf(s[2..], CARET));
      QuotePassConcat([CARET], [LOWER_N]);
      assert [CARET] + [LOWER_N] == [CARET, LOWER_N];
      QuotePassUnit(CARET);
      QuotePassUnit(LOWER_N);
    } else {
      var u := s[0];
      CaretEncodeIsOnePass(s[1..]);
      TextEscape.DoubleThenCrlfAtUnit(s, CARET);
      var head := if u == CARET then [u, u] else [u];
      QuotePassConcat(head, TextEscape.DoubleThenCrlf(s[1..], CARET));
      QuotePassUnit(u);
      QuotePassConcat([u], [u]);
      assert [u] + [u] == [u, u];
    }
  }

  lemma {:induction false} CaretDecodeInverts(s: Str)
    ensures CaretDecode(Careted(s)) == Normalize(s)
  {
    if s != [] {
      var n := if StartsWithCrlf(s) then 2 else 1;
      var head := if StartsWithCrlf(s) then [CARET, LOWER_N] else CaretUnit(s[0]);
      var rest := Careted(s[n..]);
      CaretDecodeInverts(s[n..]);
      if StartsWithCrlf(s) {
        assert s[0] == CR;
        DecodePair(LOWER_N, rest);
      } else if |head| == 2 {
        DecodePair(head[1], rest);
      } else {
        DecodePlain(s[0], rest);
      }
    }
  }

  lemma DecodePair(u: Unit, rest: Str)
    requires u == LOWER_N || u == CARET || u == APOSTROPHE
    ensures CaretDecode([CARET, u] + rest)
         == [if u == LOWER_N then LF else if u == CARET then CARET else DQUOTE] + CaretDecode(rest)
  {
    assert ([CARET, u] + rest)[2..] == rest;
  }

  lemma DecodePlain(u: Unit, rest: Str)
    requires u != CARET
    ensures CaretDecode([u] + rest) == [u] + CaretDecode(rest)
  {
    assert ([u] + rest)[1..] == rest;
  }

  /** Any text used as a parameter value is read back, with its line endings as LF. */
  lemma ParameterRoundTrip(value: Str)
    ensures DecodeParameter(EncodeParameter(value)) == Normalize(value)
  {
    var e := CaretEncode(value);
    CaretEncodeIsOnePass(value);
    CaretDecodeInverts(value);
    if NeedsQuotes(e) {
      var q := [DQUOTE] + e + [DQUOTE];
      assert q[1..|q| - 1] == e;
    }
  }

  // ---------- quote-aware splitting ----------

  /** No colon or semicolon of an encoded value can be taken for a delimiter. */
  lemma EncodedClosed(value: Str, separator: Unit)
    requires separator == COLON || separator == SEMICOLON
    ensures Closed(EncodeParameter(value), separator)
  {
    var e := CaretEncode(value);
    CaretEncodeIsOnePass(value);
    if NeedsQuotes(e) {
      InsideQuotes(e, separator);
      IndexSkips(e, [DQUOTE], separator, true);
      IndexSkips([DQUOTE], e + [DQUOTE], separator, false);
      assert [DQUOTE] + (e + [DQUOTE]) == [DQUOTE] + e + [DQUOTE];
    } else {
      PlainClosed(e, separator);
    }
  }

  /** The parts of `value` from here on, after `current` of the first one was read. */
  function SplitFrom(value: Str, separator: Unit, quoted: bool, current: Str): (parts: seq<Str>)
    ensures parts != []
  {
    if value == [] then [current]
    else
      var q := if value[0] == DQUOTE then !quoted else quoted;
      if !q && value[0] == separator then [current] + SplitFrom(value[1..], separator, q, [])
      else SplitFrom(value[1..], separator, q, current + [value[0]])
  }

  function SplitOutside(value: Str, separator: Unit): (parts: seq<Str>)
    ensures parts != []
  {
    SplitFrom(value, separator, false, [])
  }

  method SplitOutsideQuotes(value: Str, separator: Unit) returns (parts: seq<Str>)
    ensures parts == SplitOutside(value, separator)
  {
    parts := [];
    var start := 0;
    var quoted := false;
    for index := 0 to |value|
      invariant start <= index
      invariant parts + SplitFrom(value[index..], separator, quoted, value[start..index])
        == SplitOutside(value, separator)
    {
      assert value[index..][1..] == value[index + 1..];
      if value[index] == DQUOTE {
        quoted := !quoted;
      }
      if !quoted && value[index] == separator {
        parts := parts + [value[start..index]];
        start := index + 1;
        assert value[start..index + 1] == [];
      } else {
        assert value[start..index + 1] == value[start..index] + [value[index]];
      }
    }
    assert value[start..|value|] == value[start..];
    parts := parts + [value[start..]];
  }

  lemma {:induction false} SplitSkips(a: Str, b: Str, separator: Unit, quoted: bool, current: Str)
    requires UnquotedIndex(a, separator, quoted).None?
    ensures SplitFrom(a + b, separator, quoted, current)
         == SplitFrom(b, separator, QuotedAfter(a, quoted), current + a)
  {
    if a == [] {
      assert a + b == b && current + a == current;
    } else {
      SplitSkips(a[1..], b, separator, if a[0] == DQUOTE then !quoted else quoted, current + [a[0]]);
      assert (a + b)[1..] == a[1..] + b;
      assert current + [a[0]] + a[1..] == current + a;
    }
  }

  /** Parts that are closed are found again, exactly and in order. */
  lemma {:induction false} SplitInvertsJoin(parts: seq<Str>, separator: Unit)
    requires parts != [] && separator != DQUOTE
    requires forall i | 0 <= i < |parts| :: Closed(parts[i], separator)
    ensures SplitOutside(Join(parts, [separator]), separator) == parts
  {
    if |parts| == 1 {
      SplitSkips(parts[0], [], separator, false, []);
      assert parts[0] + [] == parts[0] && [] + parts[0] == parts[0];
    } else {
      SplitInvertsJoin(parts[1..], separator);
      var rest := Join(parts[1..], [separator]);
      var tail := [separator] + rest;
      SplitSkips(parts[0], tail, separator, false, []);
      ConcatAssociates(parts[0], [separator], rest);
      assert [] + parts[0] == parts[0];
      assert tail[1..] == rest;
      assert parts == [parts[0]] + parts[1..];
    }
  }

  // ---------- content lines ----------

  datatype Line = Line(name: Str, params: map<Str, Str>, value: Str)

  function AddParameter(params: map<Str, Str>, raw: Str): map<Str, Str> {
    match IndexOf(raw, EQUALS)
    case None => params
    case Some(k) =>
      if k < 1 then params
      else params[Upper(raw[..k]) := DecodeParameter(raw[k + 1..])]
  }

  function Parameters(params: map<Str, Str>, raws: seq<Str>): map<Str, Str>
    decreases |raws|
  {
    if raws == [] then params else Parameters(AddParameter(params, raws[0]), raws[1..])
  }

  /** What `parseContentLine` makes of a line; `None` where it gives up. */
  function ParseLine(line: Str): Option<Line> {
    match UnquotedIndex(line, COLON, false)
    case None => None
    case Some(colon) =>
      if colon < 1 then None
      else
        var parts := SplitOutside(line[..colon], SEMICOLON);
        Some(Line(Upper(parts[0]), Parameters(map[], parts[1..]), line[colon + 1..]))
  }

  method ParseContentLine(line: Str) returns (r: Option<Line>)
    ensures r == ParseLine(line)
  {
    var quoted := false;
    var colon := -1;
    var index := 0;
    while index < |line|
      invariant 0 <= index <= |line|
      invariant colon == -1
      invariant UnquotedIndex(line, COLON, false) ==
        match UnquotedIndex(line[index..], COLON, quoted)
        case None => None
        case Some(k) => Some(index + k)
    {
      assert line[index..][1..] == line[index + 1..];
      if line[index] == DQUOTE {
        quoted := !quoted;
      }
      if !quoted && line[index] == COLON {
        colon := index;
        break;
      }
      index := index + 1;
    }
    if colon < 1 {
      return None;
    }
    var parts := SplitOutsideQuotes(line[..colon], SEMICOLON);
    var rawParams := parts[1..];
    var params: map<Str, Str> := map[];
    for i := 0 to |rawParams|
      invariant Parameters(params, rawParams[i..]) == Parameters(map[], rawParams)
    {
      assert rawParams[i..][1..] == rawParams[i + 1..];
      params := AddParameter(params, rawParams[i]);
    }
    return Some(Line(Upper(parts[0]), params, line[colon + 1..]));
  }

  /** A parameter `key=value`, as the printers write it. */
  function Pair(key: Str, value: Str): Str {
    key + [EQUALS] + value
  }

  lemma AddPair(params: map<Str, Str>, key: Str, value: Str)
    requires PlainWord(key)
    ensures AddParameter(params, Pair(key, value)) == params[key := DecodeParameter(value)]
  {
    PlainWordIsUpper(key);
    IndexOfSkips(key, EQUALS, value);
    var raw := Pair(key, value);
    assert raw[..|key|] == key && raw[|key| + 1..] == value;
  }

  /** A line made of a property name, closed parameters and a value. */
  function Print(name: Str, params: seq<Str>, value: Str): Str {
    Join([name] + params, [SEMICOLON]) + [COLON] + value
  }

  lemma {:induction false} JoinClosed(parts: seq<Str>, separator: Unit, other: Unit)
    requires other != separator && separator != DQUOTE
    requires forall i | 0 <= i < |parts| :: Closed(parts[i], other)
    ensures Closed(Join(parts, [separator]), other)
  {
    if |parts| > 1 {
      JoinClosed(parts[1..], separator, other);
      PlainClosed([separator], other);
      ClosedConcat(parts[0], [separator], other);
      ClosedConcat(parts[0] + [separator], Join(parts[1..], [separator]), other);
    }
  }

  lemma ColonAfter(head: Str, value: Str)
    requires Closed(head, COLON)
    ensures var line := head + [COLON] + value;
      UnquotedIndex(line, COLON, false) == Some(|head|) && line[..|head|] == head && line[|head| + 1..] == value
  {
    IndexSkips(head, [COLON] + value, COLON, false);
    assert head + [COLON] + value == head + ([COLON] + value);
  }

  /** The head of a printed line ends at its first free colon and falls into its parts. */
  lemma PrintedSplits(parts: seq<Str>, value: Str)
    requires parts != [] && AllClosed(parts)
    ensures var head := Join(parts, [SEMICOLON]);
      var line := head + [COLON] + value;
      && UnquotedIndex(line, COLON, false) == Some(|head|) && line[..|head|] == head && line[|head| + 1..] == value
      && SplitOutside(head, SEMICOLON) == parts
  {
    JoinClosed(parts, SEMICOLON, COLON);
    SplitInvertsJoin(parts, SEMICOLON);
    ColonAfter(Join(parts, [SEMICOLON]), value);
  }

  /** Parsing recovers the name, the parameter list and the value of a printed line. */
  lemma ParseInvertsPrint(name: Str, params: seq<Str>, value: Str)
    requires PlainWord(name)
    requires forall i | 0 <= i < |params| :: Closed(params[i], COLON) && Closed(params[i], SEMICOLON)
    ensures ParseLine(Print(name, params, value)) == Some(Line(name, Parameters(map[], params), value))
  {
    PlainClosed(name, COLON);
    PlainClosed(name, SEMICOLON);
    assert AllClosed([name]) && AllClosed(params);
    AllClosedConcat([name], params);
    PrintedSplits([name] + params, value);
    ParseParts(Print(name, params, value), |Join([name] + params, [SEMICOLON])|, name, params);
  }

  lemma ParseParts(line: Str, colon: nat, name: Str, params: seq<Str>)
    requires PlainWord(name) && colon < |line|
    requires UnquotedIndex(line, COLON, false) == Some(colon)
    requires SplitOutside(line[..colon], SEMICOLON) == [name] + params
    ensures ParseLine(line) == Some(Line(name, Parameters(map[], params), line[colon + 1..]))
  {
    PlainWordIsUpper(name);
    assert ([name] + params)[0] == name && ([name] + params)[1..] == params;
  }

  // ---------- people ----------

  datatype Role = Chair | Required | Optional | NonParticipant
  datatype Status = NeedsAction | Accepted | Declined | Tentative | Delegated
  datatype PersonKind = Organizer | Attendee

  datatype Person = Person(email: Str, name: Option<Str>, role: Option<Role>, status: Option<Status>,
      rsvp: Option<bool>)

  /** What the parser returns for a person: role and status are text again. */
  datatype PersonRead = PersonRead(email: Str, name: Option<Str>, role: Option<Str>, status: Option<Str>,
      rsvp: Option<bool>)

  function RoleText(role: Role): Str {
    match role
    case Chair => L("chair")
    case Required => L("required")
    case Optional => L("optional")
    case NonParticipant => L("non-participant")
  }

  function StatusText(status: Status): Str {
    match status
    case NeedsAction => L("needs-action")
    case Accepted => L("accepted")
    case Declined => L("declined")
    case Tentative => L("tentative")
    case Delegated => L("delegated")
  }

  function KindName(kind: PersonKind): Str {
    if kind == Organizer then L("ORGANIZER") else L("ATTENDEE")
  }

  function NameParams(person: Person): seq<Str> {
    if person.name.Some? && person.name.value != [] then
      [Pair(L("CN"), EncodeParameter(person.name.value))]
    else []
  }

  function RoleParams(person: Person): seq<Str> {
    if person.role.Some? then [Pair(L("ROLE"), Upper(RoleText(person.role.value)))] else []
  }

  function StatusParams(person: Person): seq<Str> {
    if person.status.Some? then [Pair(L("PARTSTAT"), Upper(StatusText(person.status.value)))] else []
  }

  function RsvpParams(person: Person): seq<Str> {
    if person.rsvp.Some? then [Pair(L("RSVP"), if person.rsvp.value then L("TRUE") else L("FALSE"))] else []
  }

  function PersonParams(kind: PersonKind, person: Person): seq<Str> {
    NameParams(person) +
    if kind == Attendee then RoleParams(person) + StatusParams(person) + RsvpParams(person) else []
  }

  /** `personLine`; an address with a line break in it is refused. */
  function PersonLine(kind: PersonKind, person: Person): Result<Str> {
    if !OneLine(person.email) then Err("invalid email")
    else Ok(Print(KindName(kind), PersonParams(kind, person), L("mailto:") + person.email))
  }

  /** `value.replace(/^mailto:/i, "")`. */
  function StripMailto(value: Str): Str {
    if |value| >= 7 && Lower(value[..7]) == L("mailto:") then value[7..] else value
  }

  function ReadParam(params: map<Str, Str>, key: Str): Option<Str> {
    if key in params && params[key] != [] then Some(params[key]) else None
  }

  function ReadPerson(line: Line): PersonRead {
    var role := ReadParam(line.params, L("ROLE"));
    var status := ReadParam(line.params, L("PARTSTAT"));
    var rsvp := ReadParam(line.params, L("RSVP"));
    PersonRead(
      StripMailto(line.value),
      ReadParam(line.params, L("CN")),
      if role.Some? then Some(Lower(role.value)) else None,
      if status.Some? then Some(Lower(status.value)) else None,
      if rsvp.Some? then Some(rsvp.value == L("TRUE")) else None)
  }

  lemma {:induction false} ParametersConcat(m: map<Str, Str>, a: seq<Str>, b: seq<Str>)
    ensures Parameters(m, a + b) == Parameters(Parameters(m, a), b)
    decreases |a|
  {
    if a == [] {
      assert a + b == b;
    } else {
      ParametersConcat(AddParameter(m, a[0]), a[1..], b);
      assert (a + b)[1..] == a[1..] + b;
    }
  }

  lemma {:induction false} CaretDecodePlain(s: Str)
    requires CARET !in s
    ensures CaretDecode(s) == s
  {
    if s != [] {
      assert s[0] in s;
      CaretDecodePlain(s[1..]);
    }
  }

  // One parameter made of two plain words, or a key and an encoded value.
  lemma SinglePair(m: map<Str, Str>, key: Str, value: Str, decoded: Str)
    requires PlainWord(key)
    requires (PlainWord(value) && decoded == value)
          || exists text :: value == EncodeParameter(text) && decoded == Normalize(text)
    ensures Parameters(m, [Pair(key, value)]) == m[key := decoded]
    ensures Closed(Pair(key, value), COLON) && Closed(Pair(key, value), SEMICOLON)
  {
    assert [Pair(key, value)][1..] == [];
    AddPair(m, key, value);
    PlainWordIsUpper(key);
    if PlainWord(value) && decoded == value {
      PlainWordIsUpper(value);
      CaretDecodePlain(value);
      PlainClosed(Pair(key, value), COLON);
      PlainClosed(Pair(key, value), SEMICOLON);
    } else {
      var text :| value == EncodeParameter(text) && decoded == Normalize(text);
      ParameterRoundTrip(text);
      PlainClosed(key + [EQUALS], COLON);
      PlainClosed(key + [EQUALS], SEMICOLON);
      EncodedClosed(text, COLON);
      EncodedClosed(text, SEMICOLON);
      ClosedConcat(key + [EQUALS], value, COLON);
      ClosedConcat(key + [EQUALS], value, SEMICOLON);
    }
  }

  /** Words of small letters and hyphens. */
  predicate IsSmallWord(s: string) {
    s != "" && forall i | 0 <= i < |s| :: 'a' <= s[i] <= 'z' || s[i] == '-'
  }

  lemma SmallWordText(s: string)
    requires IsSmallWord(s)
    ensures PlainWord(Upper(L(s))) && Lower(Upper(L(s))) == L(s)
  {
  }

  lemma RoleTexts(role: Role)
    ensures PlainWord(Upper(RoleText(role))) && Lower(Upper(RoleText(role))) == RoleText(role)
  {
    match role
    case Chair => SmallWordText("chair");
    case Required => SmallWordText("required");
    case Optional => SmallWordText("optional");
    case NonParticipant => SmallWordText("non-participant");
  }

  lemma StatusTexts(status: Status)
    ensures PlainWord(Upper(StatusText(status))) && Lower(Upper(StatusText(status))) == StatusText(status)
  {
    match status
    case NeedsAction => SmallWordText("needs-action");
    case Accepted => SmallWordText("accepted");
    case Declined => SmallWordText("declined");
    case Tentative => SmallWordText("tentative");
    case Delegated => SmallWordText("delegated");
  }

  function NameValue(person: Person): (r: Option<Str>)
    ensures r.Some? ==> r.value != []
  {
    if person.name.Some? && person.name.value != [] then Some(Normalize(person.name.value)) else None
  }

  function RoleValue(person: Person): Option<Str> {
    if person.role.Some? then Some(Upper(RoleText(person.role.value))) else None
  }

  function StatusValue(person: Person): Option<Str> {
    if person.status.Some? then Some(Upper(StatusText(person.status.value))) else None
  }

  function RsvpValue(person: Person): Option<Str> {
    if person.rsvp.None? then None
    else Some(if person.rsvp.value then L("TRUE") else L("FALSE"))
  }

  function Put(m: map<Str, Str>, key: Str, value: Option<Str>): map<Str, Str> {
    if value.Some? then m[key := value.value] else m
  }

  /** The parameters the parser must find on a person's line. */
  function ExpectedParams(kind: PersonKind, person: Person): map<Str, Str> {
    var named := Put(map[], L("CN"), NameValue(person));
    if kind == Organizer then named else ExpectedOfAttendee(named, person)
  }

  function ExpectedOfAttendee(m: map<Str, Str>, person: Person): map<Str, Str> {
    Put(Put(Put(m, L("ROLE"), RoleValue(person)), L("PARTSTAT"), StatusValue(person)), L("RSVP"), RsvpValue(person))
  }

  predicate AllClosed(params: seq<Str>) {
    forall i | 0 <= i < |params| :: Closed(params[i], COLON) && Closed(params[i], SEMICOLON)
  }

  lemma NameGroup(person: Person)
    ensures AllClosed(NameParams(person))
    ensures Parameters(map[], NameParams(person)) == Put(map[], L("CN"), NameValue(person))
  {
    if person.name.Some? && person.name.value != [] {
      var text := person.name.value;
      SinglePair(map[], L("CN"), EncodeParameter(text), Normalize(text));
    }
  }

  lemma RoleGroup(m: map<Str, Str>, person: Person)
    ensures AllClosed(RoleParams(person))
    ensures Parameters(m, RoleParams(person)) == Put(m, L("ROLE"), RoleValue(person))
  {
    if person.role.Some? {
      RoleTexts(person.role.value);
      var value := Upper(RoleText(person.role.value));
      SinglePair(m, L("ROLE"), value, value);
    }
  }

  lemma StatusGroup(m: map<Str, Str>, person: Person)
    ensures AllClosed(StatusParams(person))
    ensures Parameters(m, StatusParams(person)) == Put(m, L("PARTSTAT"), StatusValue(person))
  {
    if person.status.Some? {
      StatusTexts(person.status.value);
      var value := Upper(StatusText(person.status.value));
      SinglePair(m, L("PARTSTAT"), value, value);
    }
  }

  lemma RsvpGroup(m: map<Str, Str>, person: Person)
    ensures AllClosed(RsvpParams(person))
    ensures Parameters(m, RsvpParams(person)) == Put(m, L("RSVP"), RsvpValue(person))
  {
    if person.rsvp.Some? {
      var value := if person.rsvp.value then L("TRUE") else L("FALSE");
      SinglePair(m, L("RSVP"), value, value);
    }
  }

  lemma AllClosedConcat(a: seq<Str>, b: seq<Str>)
    requires AllClosed(a) && AllClosed(b)
    ensures AllClosed(a + b)
  {
  }

  lemma AttendeeParameters(m: map<Str, Str>, person: Person)
    ensures var tail := RoleParams(person) + StatusParams(person) + RsvpParams(person);
      AllClosed(tail) && Parameters(m, tail) == ExpectedOfAttendee(m, person)
  {
    var m1 := Put(m, L("ROLE"), RoleValue(person));
    var m2 := Put(m1, L("PARTSTAT"), StatusValue(person));
    RoleGroup(m, person);
    StatusGroup(m1, person);
    RsvpGroup(m2, person);
    ChainGroups(m, RoleParams(person), m1, StatusParams(person), m2, RsvpParams(person));
  }

  lemma ChainGroups(m: map<Str, Str>, a: seq<Str>, m1: map<Str, Str>, b: seq<Str>, m2: map<Str, Str>, c: seq<Str>)
    requires AllClosed(a) && AllClosed(b) && AllClosed(c)
    requires Parameters(m, a) == m1 && Parameters(m1, b) == m2
    ensures AllClosed(a + b + c) && Parameters(m, a + b + c) == Parameters(m2, c)
  {
    ParametersConcat(m, a, b);
    ParametersConcat(m, a + b, c);
  }

  lemma PersonParameters(kind: PersonKind, person: Person)
    ensures AllClosed(PersonParams(kind, person))
    ensures Parameters(map[], PersonParams(kind, person)) == ExpectedParams(kind, person)
  {
    var n, tail := NameParams(person), RoleParams(person) + StatusParams(person) + RsvpParams(person);
    NameGroup(person);
    if kind == Organizer {
      assert n + [] == n;
    } else {
      AttendeeParameters(Put(map[], L("CN"), NameValue(person)), person);
      ParametersConcat(map[], n, tail);
      AllClosedConcat(n, tail);
    }
  }

  /** What reading a person back must give. */
  function Recovered(kind: PersonKind, person: Person): PersonRead {
    PersonRead(
      person.email,
      NameValue(person),
      if kind == Attendee && person.role.Some? then Some(RoleText(person.role.value)) else None,
      if kind == Attendee && person.status.Some? then Some(StatusText(person.status.value)) else None,
      if kind == Attendee then person.rsvp else None)
  }

  lemma FourKeys(k1: Str, v1: Option<Str>, k2: Str, v2: Option<Str>, k3: Str, v3: Option<Str>, k4: Str, v4: Option<Str>)
    requires k1 != k2 && k1 != k3 && k1 != k4 && k2 != k3 && k2 != k4 && k3 != k4
    requires forall v | v in {v1, v2, v3, v4} && v.Some? :: v.value != []
    ensures var m := Put(Put(Put(Put(map[], k1, v1), k2, v2), k3, v3), k4, v4);
      ReadParam(m, k1) == v1 && ReadParam(m, k2) == v2 && ReadParam(m, k3) == v3 && ReadParam(m, k4) == v4
  {
  }

  lemma ReadExpected(kind: PersonKind, person: Person)
    ensures ReadPerson(Line(KindName(kind), ExpectedParams(kind, person), L("mailto:") + person.email))
         == Recovered(kind, person)
  {
    var attendee := kind == Attendee;
    var role := if attendee then RoleValue(person) else None;
    var status := if attendee then StatusValue(person) else None;
    var rsvp := if attendee then RsvpValue(person) else None;
    DistinctKeys();
    FourKeys(L("CN"), NameValue(person), L("ROLE"), role, L("PARTSTAT"), status, L("RSVP"), rsvp);
    ReadValues(person);
    MailtoStripped(person.email);
  }

  lemma ReadValues(person: Person)
    ensures person.role.Some? ==> Lower(RoleValue(person).value) == RoleText(person.role.value)
    ensures person.status.Some? ==> Lower(StatusValue(person).value) == StatusText(person.status.value)
    ensures person.rsvp.Some? ==> (RsvpValue(person).value == L("TRUE") <==> person.rsvp.value)
    ensures RoleValue(person).Some? ==> RoleValue(person).value != []
    ensures StatusValue(person).Some? ==> StatusValue(person).value != []
  {
    if person.role.Some? { RoleTexts(person.role.value); }
    if person.status.Some? { StatusTexts(person.status.value); }
    assert |L("TRUE")| != |L("FALSE")|;
  }

  lemma MailtoStripped(email: Str)
    ensures StripMailto(L("mailto:") + email) == email
  {
    var value := L("mailto:") + email;
    assert value[..7] == L("mailto:") && value[7..] == email;
    assert Lower(L("mailto:")) == L("mailto:");
  }

  /**
   Every person comes back from the printed line: same property, same address,
   the display name with its line endings as LF, and for an attendee the role,
   the status and the reply request. Only an address with a line break is refused.
   */
  lemma PersonRoundTrip(kind: PersonKind, person: Person)
    ensures PersonLine(kind, person).Ok? <==> OneLine(person.email)
    ensures PersonLine(kind, person).Ok? ==>
      var parsed := ParseLine(PersonLine(kind, person).value);
      && parsed == Some(Line(KindName(kind), ExpectedParams(kind, person), L("mailto:") + person.email))
      && ReadPerson(parsed.value) == Recovered(kind, person)
  {
    if OneLine(person.email) {
      KindPlain(kind);
      PersonParameters(kind, person);
      PrintedLineParses(KindName(kind), PersonParams(kind, person), L("mailto:") + person.email,
        ExpectedParams(kind, person));
      ReadExpected(kind, person);
    }
  }

  lemma KindPlain(kind: PersonKind)
    ensures PlainWord(KindName(kind))
  {
  }

  lemma PrintedLineParses(name: Str, params: seq<Str>, value: Str, expected: map<Str, Str>)
    requires PlainWord(name) && AllClosed(params) && Parameters(map[], params) == expected
    ensures ParseLine(Print(name, params, value)) == Some(Line(name, expected, value))
  {
    ParseInvertsPrint(name, params, value);
  }

  lemma DistinctKeys()
    ensures L("CN") != L("ROLE") && L("CN") != L("PARTSTAT") && L("CN") != L("RSVP")
    ensures L("ROLE") != L("PARTSTAT") && L("ROLE") != L("RSVP") && L("PARTSTAT") != L("RSVP")
  {
    assert |L("CN")| == 2 && |L("ROLE")| == 4 && |L("PARTSTAT")| == 8;
    assert L("ROLE")[1] != L("RSVP")[1];
  }
}
