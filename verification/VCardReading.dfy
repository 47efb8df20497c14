/**
 Reading cards that other programs wrote: when a body is a card, which line
 decides each field, and which lines are preserved, over names and values.
 */
module VCardReading {
  import opened JsString
  import opened Results
  import opened QuotedScan
  import opened VCard
  import opened FoldedBody
  import VCardRoundTrip
  import LineFolding
  import TextEscape

  // ---------- what a line says ----------

  /** A line without a colon outside quotes, or with its first one at the start, is refused. */
  lemma LineRefused(line: Str)
    ensures ContentLine(line).None? <==> FreeAt(line, COLON, false, 0) || forall i :: !FreeAt(line, COLON, false, i)
  {
    IndexExactly(line, COLON, false);
  }

  lemma {:induction false} LastPart(prefix: Str, name: Str, separator: Unit)
    requires separator !in name && (prefix == [] || prefix[|prefix| - 1] == separator)
    ensures var parts := Split(prefix + name, separator); parts[|parts| - 1] == name
    decreases |prefix|
  {
    if prefix == [] {
      assert prefix + name == name;
      VCardRoundTrip.SplitAbsent(name, separator);
    } else {
      TailOfConcat(prefix, name);
      LastPart(prefix[1..], name, separator);
      if prefix[0] != separator {
        assert |prefix| > 1;
        LastPartKept(prefix + name, separator, name);
      }
    }
  }

  lemma LastPartKept(s: Str, separator: Unit, name: Str)
    requires s != [] && s[0] != separator && separator in s
    requires var parts := Split(s[1..], separator); parts[|parts| - 1] == name
    ensures var parts := Split(s, separator); parts[|parts| - 1] == name
  {
    SeparatorSplits(s[1..], separator);
  }

  lemma {:induction false} SeparatorSplits(s: Str, separator: Unit)
    requires separator in s
    ensures |Split(s, separator)| > 1
  {
    if s[0] != separator {
      SeparatorSplits(s[1..], separator);
    }
  }

  /**
   Any other line: a group before the last dot, a name in any case, parameters,
   and the value after the first free colon.
   */
  lemma LineExactly(group: Str, name: Str, segments: seq<Str>, value: Str)
    requires DOT !in name && (group == [] || group[|group| - 1] == DOT)
    requires SEMICOLON !in group + name && forall i | 0 <= i < |segments| :: SEMICOLON !in segments[i]
    requires var head := Join([group + name] + segments, [SEMICOLON]); head != [] && Closed(head, COLON)
    ensures ContentLine(Join([group + name] + segments, [SEMICOLON]) + ([COLON] + value))
         == Some(VLine(Upper(name), AddSegments(map[], segments), value))
  {
    var all := [group + name] + segments;
    var head := Join(all, [SEMICOLON]);
    VCardRoundTrip.SplitJoined(all, SEMICOLON);
    LastPart(group, name, DOT);
    HeadExactly(head, all, name, value);
    assert all[1..] == segments;
  }

  lemma HeadExactly(head: Str, all: seq<Str>, name: Str, value: Str)
    requires head != [] && Closed(head, COLON) && Split(head, SEMICOLON) == all
    requires var parts := Split(all[0], DOT); parts[|parts| - 1] == name
    ensures ContentLine(head + ([COLON] + value)) == Some(VLine(Upper(name), AddSegments(map[], all[1..]), value))
  {
    var line := head + ([COLON] + value);
    IndexSkips(head, [COLON] + value, COLON, false);
    assert line[..|head|] == head && line[|head| + 1..] == value;
  }

  // ---------- parameters ----------

  function ValuesOf(text: Str): seq<Str> {
    LowerAll(Split(StripQuotes(text), COMMA))
  }

  /** The values come in small letters, and quotes around the list are not part of it. */
  lemma QuotedValues(text: Str)
    requires DQUOTE !in text
    ensures ValuesOf(text) == ValuesOf([DQUOTE] + text + [DQUOTE]) == LowerAll(Split(text, COMMA))
  {
    var q := [DQUOTE] + text + [DQUOTE];
    assert q[1..] == text + [DQUOTE] && (text + [DQUOTE])[..|text|] == text;
    assert text != [] ==> text[0] in text && text[|text| - 1] in text;
  }

  /**
   What the parameters say of a key: the last one that sets it, and for TYPE also
   the bare ones after it.
   */
  function Said(segments: seq<Str>, key: Str): Option<seq<Str>> {
    if segments == [] then None
    else
      var front, last := segments[..|segments| - 1], segments[|segments| - 1];
      var k := IndexOf(last, EQUALS);
      if k.Some? && Upper(last[..k.value]) == key then Some(ValuesOf(last[k.value + 1..]))
      else if k.None? && key == TYPE then
        var before := Said(front, key);
        Some((if before.Some? then before.value else []) + [Lower(last)])
      else Said(front, key)
  }

  lemma {:induction false} SegmentsSnoc(m: map<Str, seq<Str>>, segments: seq<Str>, last: Str)
    ensures AddSegments(m, segments + [last]) == AddSegment(AddSegments(m, segments), last)
    decreases |segments|
  {
    if segments == [] {
      assert [] + [last] == [last] && [last][1..] == [];
    } else {
      SegmentsSnoc(AddSegment(m, segments[0]), segments[1..], last);
      TailOfConcat(segments, [last]);
    }
  }

  function Lookup<V>(m: map<Str, V>, key: Str): Option<V> {
    if key in m then Some(m[key]) else None
  }

  lemma SegmentSays(m: map<Str, seq<Str>>, last: Str, key: Str)
    ensures var k := IndexOf(last, EQUALS);
      Lookup(AddSegment(m, last), key) ==
        if k.Some? && Upper(last[..k.value]) == key then Some(ValuesOf(last[k.value + 1..]))
        else if k.None? && key == TYPE then Some((if key in m then m[key] else []) + [Lower(last)])
        else Lookup(m, key)
  {
  }

  lemma {:induction false} ParametersExactly(segments: seq<Str>, key: Str)
    ensures Said(segments, key) == Lookup(AddSegments(map[], segments), key)
  {
    if segments != [] {
      var front, last := segments[..|segments| - 1], segments[|segments| - 1];
      ParametersExactly(front, key);
      SegmentsSnoc(map[], front, last);
      assert front + [last] == segments;
      SegmentSays(AddSegments(map[], front), last, key);
    }
  }

  // ---------- the lines of a property ----------

  predicate Says(raw: Str, k: Known) {
    raw != [] && ContentLine(raw).Some? && ContentLine(raw).value.name == KnownName(k)
  }

  function ValueOf(raw: Str): Str
    requires ContentLine(raw).Some?
  {
    ContentLine(raw).value.value
  }

  predicate Has(raw: Str, key: Str, item: Str)
    requires ContentLine(raw).Some?
  {
    var params := ContentLine(raw).value.params;
    key in params && item in params[key]
  }

  /** A version line that the parser understands. */
  predicate SaysVersion(raw: Str) {
    Says(raw, VERSION) && (ValueOf(raw) == L("3.0") || ValueOf(raw) == L("4.0"))
  }

  /** A photo that is a link: marked as one, or an address of the web. */
  predicate SaysLink(raw: Str) {
    Says(raw, PHOTO) && (Has(raw, L("VALUE"), L("uri")) || L("http:") <= Lower(ValueOf(raw))
      || L("https:") <= Lower(ValueOf(raw)))
  }

  /** A line that is preserved: unknown, an embedded photo, or another version. */
  predicate SaysElse(raw: Str) {
    && raw != [] && ContentLine(raw).Some?
    && ((forall k :: !Says(raw, k)) || (Says(raw, PHOTO) && !SaysLink(raw))
      || (Says(raw, VERSION) && !SaysVersion(raw)))
  }

  /** Properties kept as one text. */
  predicate IsText(k: Known) {
    k in {UID, FN, NICKNAME, TITLE, ROLE, NOTE, ORG, BDAY}
  }

  /** Unescaped; of an organization the first component, of a birthday the value as it stands. */
  function TextIn(raw: Str, k: Known): Str
    requires ContentLine(raw).Some?
  {
    var value := ValueOf(raw);
    if k.BDAY? then value
    else if k.ORG? then TextEscape.VCardUnescape(TextEscape.SplitFrom(value, SEMICOLON, [], false)[0])
    else TextEscape.VCardUnescape(value)
  }

  /** The last line of a property. */
  predicate LastOf(raws: seq<Str>, k: Known, i: int) {
    0 <= i < |raws| && Says(raws[i], k) && forall j | i < j < |raws| :: !Says(raws[j], k)
  }

  predicate LastVersion(raws: seq<Str>, i: int) {
    0 <= i < |raws| && SaysVersion(raws[i]) && forall j | i < j < |raws| :: !SaysVersion(raws[j])
  }

  /** What some lines say, in order. */
  function Gathered<T>(raws: seq<Str>, pick: Str -> Option<T>): seq<T> {
    if raws == [] then []
    else
      var last := pick(raws[|raws| - 1]);
      Gathered(raws[..|raws| - 1], pick) + if last.Some? then [last.value] else []
  }

  function Link(raw: Str): Option<Str> {
    if SaysLink(raw) then Some(ValueOf(raw)) else None
  }

  function Kept(raw: Str): Option<Str> {
    if SaysElse(raw) then Some(raw) else None
  }

  function Marks(raw: Str): (seq<Str>, bool)
    requires ContentLine(raw).Some?
  {
    var params := ContentLine(raw).value.params;
    (if L("TYPE") in params then WithoutPref(params[L("TYPE")]) else [],
     (L("PREF") in params && params[L("PREF")] != [] && params[L("PREF")][0] == L("1"))
       || Has(raw, L("TYPE"), L("pref")))
  }

  /** A mail address, telephone or link with its types and preference, without a scheme before it. */
  function Value(k: Known): Str -> Option<TypedRead> {
    raw =>
      if !Says(raw, k) then None
      else
        var bare := if k.TEL? then StripPrefix(ValueOf(raw), L("tel:")) else ValueOf(raw);
        Some(TypedRead(TextEscape.VCardUnescape(StripPrefix(bare, L("mailto:"))), Marks(raw).0, Marks(raw).1))
  }

  function Components(raw: Str): seq<Str>
    requires ContentLine(raw).Some?
  {
    MapUnescape(TextEscape.SplitFrom(ValueOf(raw), SEMICOLON, [], false))
  }

  function Place(raw: Str): Option<AddressRead> {
    if Says(raw, ADR) then Some(AddressRead(Parts(Components(raw)), Marks(raw).0, Marks(raw).1)) else None
  }

  /** The first seven components, those that are not empty. */
  function Parts(components: seq<Str>): seq<Option<Str>> {
    seq(7, i requires 0 <= i < 7 => if i < |components| && components[i] != [] then Some(components[i]) else None)
  }

  /** The last N line with a non-empty component at a place. */
  predicate LastWith(raws: seq<Str>, at: nat, i: int) {
    0 <= i < |raws| && SaysPart(raws[i], at) && forall j | i < j < |raws| :: !SaysPart(raws[j], at)
  }

  predicate SaysPart(raw: Str, at: nat) {
    Says(raw, N) && at < |Components(raw)| && Components(raw)[at] != []
  }

  // ---------- one line ----------

  lemma SaysIsKnown(raw: Str, k: Known)
    requires raw != [] && ContentLine(raw).Some?
    ensures Says(raw, k) <==> KnownOf(ContentLine(raw).value.name) == Some(k)
  {
    KnownOfName(k);
  }

  lemma ElseIsKept(raw: Str)
    requires raw != [] && ContentLine(raw).Some?
    ensures SaysElse(raw) <==> IsKeptRaw(ContentLine(raw).value)
  {
    forall k ensures Says(raw, k) <==> KnownOf(ContentLine(raw).value.name) == Some(k) {
      SaysIsKnown(raw, k);
    }
    LinkIsUri(raw);
  }

  lemma LinkIsUri(raw: Str)
    requires raw != [] && ContentLine(raw).Some?
    ensures Says(raw, PHOTO) ==> (SaysLink(raw) <==> IsUriPhoto(ContentLine(raw).value))
  {
  }

  function Text(card: Card, k: Known): Option<Str> {
    if k in card.texts then Some(card.texts[k]) else None
  }

  /** What one line does to the card, field by field. */
  lemma LineDoes(card: Card, raw: Str, next: Card)
    requires Consume(card, raw) == Some(next)
    ensures next.version == if SaysVersion(raw) then Some(ValueOf(raw)) else card.version
    ensures next.photoUrls == card.photoUrls + if SaysLink(raw) then [ValueOf(raw)] else []
    ensures next.preserved == card.preserved + if SaysElse(raw) then [raw] else []
    ensures next.addresses == card.addresses + if Place(raw).Some? then [Place(raw).value] else []
    ensures next.name == if Says(raw, N) then ReadName(card.name, Components(raw)) else card.name
  {
    if raw == [] {
      Unchanged(card);
    } else {
      var line := ContentLine(raw).value;
      ElseIsKept(raw);
      LinkIsUri(raw);
      SaysIsKnown(raw, VERSION);
      SaysIsKnown(raw, PHOTO);
      SaysIsKnown(raw, ADR);
      SaysIsKnown(raw, N);
      if IsKeptRaw(line) {
        KeptDoes(card, raw, line, next);
      } else {
        KnownDoes(card, raw, line, KnownOf(line.name).value, next);
        PlaceIsRead(raw);
      }
    }
  }

  lemma PlaceIsRead(raw: Str)
    requires ContentLine(raw).Some?
    ensures Says(raw, ADR) ==> Place(raw) == Some(ReadAddress(ValueOf(raw), ContentLine(raw).value.params))
  {
    assert Parts(Components(raw)) == SevenParts(Components(raw));
  }

  lemma Unchanged(card: Card)
    ensures card.photoUrls + [] == card.photoUrls && card.preserved + [] == card.preserved
    ensures card.addresses + [] == card.addresses
  {
  }

  lemma KeptDoes(card: Card, raw: Str, line: VLine, next: Card)
    requires ContentLine(raw) == Some(line) && raw != [] && IsKeptRaw(line) && next == Apply(card, raw, line)
    ensures next == card.(preserved := card.preserved + [raw])
  {
  }

  /** A line of a known property that is not preserved. */
  lemma KnownDoes(card: Card, raw: Str, line: VLine, k: Known, next: Card)
    requires ContentLine(raw) == Some(line) && raw != [] && line.name == KnownName(k)
      && next == ApplyKnown(card, k, line.params, line.value)
    ensures next.version == if k.VERSION? then Some(line.value) else card.version
    ensures next.photoUrls == card.photoUrls + if k.PHOTO? then [line.value] else []
    ensures next.preserved == card.preserved
    ensures next.addresses == card.addresses + if k.ADR? then [ReadAddress(line.value, line.params)] else []
    ensures next.name == if k.N? then ReadName(card.name, Components(raw)) else card.name
  {
    Unchanged(card);
  }

  lemma TextDoes(card: Card, raw: Str, next: Card, k: Known)
    requires Consume(card, raw) == Some(next)
    ensures Text(next, k) == if IsText(k) && Says(raw, k) then Some(TextIn(raw, k)) else Text(card, k)
  {
    if raw != [] {
      var line := ContentLine(raw).value;
      SaysIsKnown(raw, k);
      ElseIsKept(raw);
      if IsKeptRaw(line) {
        KeptDoes(card, raw, line, next);
        if Says(raw, k) {
          OnlyFramesKept(raw, k);
        }
      } else {
        SaysIsKnown(raw, KnownOf(line.name).value);
        KnownText(card, raw, line, KnownOf(line.name).value, next, k);
      }
    }
  }

  /** No line of a text property is preserved. */
  lemma OnlyFramesKept(raw: Str, k: Known)
    requires raw != [] && ContentLine(raw).Some? && IsKeptRaw(ContentLine(raw).value) && Says(raw, k)
    ensures k.VERSION? || k.PHOTO?
  {
    SaysIsKnown(raw, k);
  }

  lemma KnownText(card: Card, raw: Str, line: VLine, j: Known, next: Card, k: Known)
    requires ContentLine(raw) == Some(line) && raw != [] && Says(raw, j)
      && next == ApplyKnown(card, j, line.params, line.value)
    ensures Text(next, k) == if IsText(k) && j == k then Some(TextIn(raw, k)) else Text(card, k)
  {
  }

  lemma ValueDoes(card: Card, raw: Str, next: Card, k: Known)
    requires Consume(card, raw) == Some(next) && k in {EMAIL, TEL, URL}
    ensures TypedOf(next, k) == TypedOf(card, k) + if Value(k)(raw).Some? then [Value(k)(raw).value] else []
  {
    assert TypedOf(card, k) + [] == TypedOf(card, k);
    if raw != [] {
      var line := ContentLine(raw).value;
      SaysIsKnown(raw, k);
      if IsKeptRaw(line) {
        KeptDoes(card, raw, line, next);
        if Says(raw, k) {
          OnlyFramesKept(raw, k);
        }
      } else {
        SaysIsKnown(raw, KnownOf(line.name).value);
        KnownValue(card, raw, line, KnownOf(line.name).value, next, k);
      }
    }
  }

  lemma KnownValue(card: Card, raw: Str, line: VLine, j: Known, next: Card, k: Known)
    requires ContentLine(raw) == Some(line) && raw != [] && Says(raw, j)
      && next == ApplyKnown(card, j, line.params, line.value)
    requires k in {EMAIL, TEL, URL} && (Says(raw, k) <==> j == k)
    ensures TypedOf(next, k) == TypedOf(card, k) + if j == k then [Value(k)(raw).value] else []
  {
    TypedApplied(card, j, line.params, line.value, k);
    if j == k {
      ValueIsRead(raw, k);
    }
  }

  lemma TypedApplied(card: Card, j: Known, params: map<Str, seq<Str>>, value: Str, k: Known)
    requires k in {EMAIL, TEL, URL}
    ensures TypedOf(ApplyKnown(card, j, params, value), k) ==
      TypedOf(card, k) + if j == k then [ReadTyped(if k.TEL? then StripPrefix(value, TEL_SCHEME) else value, params)]
        else []
  {
    assert TypedOf(card, k) + [] == TypedOf(card, k);
  }

  lemma ValueIsRead(raw: Str, k: Known)
    requires ContentLine(raw).Some? && Says(raw, k)
    ensures Value(k)(raw) == Some(ReadTyped(
      if k.TEL? then StripPrefix(ValueOf(raw), TEL_SCHEME) else ValueOf(raw), ContentLine(raw).value.params))
  {
  }

  // ---------- all lines ----------

  lemma {:induction false} ConsumeSnoc(card: Card, raws: seq<Str>, last: Str)
    ensures var before := ConsumeAll(card, raws);
      ConsumeAll(card, raws + [last]) == if before.None? then None else Consume(before.value, last)
    decreases |raws|
  {
    if raws == [] {
      assert [] + [last] == [last] && [last][1..] == [];
    } else {
      TailOfConcat(raws, [last]);
      var next := Consume(card, raws[0]);
      if next.Some? {
        ConsumeSnoc(next.value, raws[1..], last);
      }
    }
  }

  /** The text of the last line of a property. */
  function LastText(raws: seq<Str>, k: Known): Option<Str> {
    if raws == [] then None
    else if Says(raws[|raws| - 1], k) then Some(TextIn(raws[|raws| - 1], k))
    else LastText(raws[..|raws| - 1], k)
  }

  function VersionSaid(raws: seq<Str>): Option<Str> {
    if raws == [] then None
    else if SaysVersion(raws[|raws| - 1]) then Some(ValueOf(raws[|raws| - 1]))
    else VersionSaid(raws[..|raws| - 1])
  }

  /** What the N lines leave, one after the other. */
  function NameSaid(raws: seq<Str>): NameRead {
    if raws == [] then NO_NAME
    else
      var before, last := NameSaid(raws[..|raws| - 1]), raws[|raws| - 1];
      if Says(last, N) then ReadName(before, Components(last)) else before
  }

  lemma {:induction false} AllDo(raws: seq<Str>)
    requires ConsumeAll(EMPTY_CARD, raws).Some?
    ensures var card := ConsumeAll(EMPTY_CARD, raws).value;
      && card.version == VersionSaid(raws) && card.photoUrls == Gathered(raws, Link)
      && card.preserved == Gathered(raws, Kept) && card.addresses == Gathered(raws, Place)
        && card.name == NameSaid(raws)
    decreases |raws|
  {
    if raws != [] {
      var front, last := raws[..|raws| - 1], raws[|raws| - 1];
      assert front + [last] == raws;
      ConsumeSnoc(EMPTY_CARD, front, last);
      AllDo(front);
      LineDoes(ConsumeAll(EMPTY_CARD, front).value, last, ConsumeAll(EMPTY_CARD, raws).value);
    }
  }

  lemma {:induction false} AllSay(raws: seq<Str>, k: Known)
    requires ConsumeAll(EMPTY_CARD, raws).Some?
    ensures var card := ConsumeAll(EMPTY_CARD, raws).value;
      && Text(card, k) == (if IsText(k) then LastText(raws, k) else None)
      && (k in {EMAIL, TEL, URL} ==> TypedOf(card, k) == Gathered(raws, Value(k)))
    decreases |raws|
  {
    if raws != [] {
      var front, last := raws[..|raws| - 1], raws[|raws| - 1];
      assert front + [last] == raws;
      ConsumeSnoc(EMPTY_CARD, front, last);
      AllSay(front, k);
      TextDoes(ConsumeAll(EMPTY_CARD, front).value, last, ConsumeAll(EMPTY_CARD, raws).value, k);
      if k in {EMAIL, TEL, URL} {
        ValueDoes(ConsumeAll(EMPTY_CARD, front).value, last, ConsumeAll(EMPTY_CARD, raws).value, k);
      }
    }
  }

  /** A line is accepted: it is empty, or its first colon outside quotes stands behind something. */
  ghost predicate Acceptable(raw: Str) {
    raw == [] || (!FreeAt(raw, COLON, false, 0) && exists i :: FreeAt(raw, COLON, false, i))
  }

  lemma {:induction false} AllAcceptable(raws: seq<Str>)
    ensures ConsumeAll(EMPTY_CARD, raws).Some? <==> forall i | 0 <= i < |raws| :: Acceptable(raws[i])
    decreases |raws|
  {
    if raws != [] {
      var front, last := raws[..|raws| - 1], raws[|raws| - 1];
      assert front + [last] == raws;
      ConsumeSnoc(EMPTY_CARD, front, last);
      AllAcceptable(front);
      LineRefused(last);
      assert forall i | 0 <= i < |front| :: raws[i] == front[i];
    }
  }

  // ---------- which line decides ----------

  lemma {:induction false} LastDecides(raws: seq<Str>, k: Known, i: int)
    ensures LastOf(raws, k, i) ==> LastText(raws, k) == Some(TextIn(raws[i], k))
    decreases |raws|
  {
    if LastOf(raws, k, i) && i < |raws| - 1 {
      var front := raws[..|raws| - 1];
      assert !Says(raws[|raws| - 1], k);
      assert LastOf(front, k, i);
      LastDecides(front, k, i);
    }
  }

  lemma LastEarlier(raws: seq<Str>, k: Known, i: int)
    requires raws != [] && !Says(raws[|raws| - 1], k) && LastOf(raws[..|raws| - 1], k, i)
    ensures LastOf(raws, k, i)
  {
    forall j | i < j < |raws| ensures !Says(raws[j], k) {
      assert j < |raws| - 1 ==> raws[j] == raws[..|raws| - 1][j];
    }
  }

  lemma {:induction false} FindLast(raws: seq<Str>, k: Known) returns (i: int)
    requires LastText(raws, k).Some?
    ensures LastOf(raws, k, i)
    decreases |raws|
  {
    if Says(raws[|raws| - 1], k) {
      i := |raws| - 1;
    } else {
      i := FindLast(raws[..|raws| - 1], k);
      LastEarlier(raws, k, i);
    }
  }

  /** The text of a property is that of its last line. */
  ghost predicate TextOfLast(raws: seq<Str>, k: Known, text: Option<Str>) {
    (text.Some? <==> exists i :: LastOf(raws, k, i))
      && forall i | LastOf(raws, k, i) :: text == Some(TextIn(raws[i], k))
  }

  lemma TextIsLast(raws: seq<Str>, k: Known)
    ensures TextOfLast(raws, k, LastText(raws, k))
  {
    if LastText(raws, k).Some? {
      var i := FindLast(raws, k);
    }
    forall j | LastOf(raws, k, j) ensures LastText(raws, k) == Some(TextIn(raws[j], k)) {
      LastDecides(raws, k, j);
    }
  }

  lemma {:induction false} VersionDecides(raws: seq<Str>, i: int)
    ensures LastVersion(raws, i) ==> VersionSaid(raws) == Some(ValueOf(raws[i]))
    decreases |raws|
  {
    if LastVersion(raws, i) && i < |raws| - 1 {
      var front := raws[..|raws| - 1];
      assert !SaysVersion(raws[|raws| - 1]);
      assert LastVersion(front, i);
      VersionDecides(front, i);
    }
  }

  lemma {:induction false} FindVersion(raws: seq<Str>) returns (i: int)
    requires VersionSaid(raws).Some?
    ensures LastVersion(raws, i)
    decreases |raws|
  {
    if SaysVersion(raws[|raws| - 1]) {
      i := |raws| - 1;
    } else {
      i := FindVersion(raws[..|raws| - 1]);
      forall j | i < j < |raws| ensures !SaysVersion(raws[j]) {
        assert j < |raws| - 1 ==> raws[j] == raws[..|raws| - 1][j];
      }
    }
  }

  ghost predicate VersionOfLast(raws: seq<Str>, version: Option<Str>) {
    (version.Some? <==> exists i :: LastVersion(raws, i))
      && forall i | LastVersion(raws, i) :: version == Some(ValueOf(raws[i]))
  }

  lemma VersionIsLast(raws: seq<Str>)
    ensures VersionOfLast(raws, VersionSaid(raws))
  {
    if VersionSaid(raws).Some? {
      var i := FindVersion(raws);
    }
    forall j | LastVersion(raws, j) ensures VersionSaid(raws) == Some(ValueOf(raws[j])) {
      VersionDecides(raws, j);
    }
  }

  /** The list of names that the last line with a non-empty component leaves. */
  function ListSaid(raws: seq<Str>, at: nat): Option<seq<Str>> {
    if raws == [] then None
    else if SaysPart(raws[|raws| - 1], at) then
      Some(TextEscape.SplitFrom(Components(raws[|raws| - 1])[at], COMMA, [], false))
    else ListSaid(raws[..|raws| - 1], at)
  }

  /** A list of names is that of the last N line that gives one. */
  ghost predicate ListOfLast(raws: seq<Str>, at: nat, names: Option<seq<Str>>) {
    && (names.Some? <==> exists i :: LastWith(raws, at, i))
    && forall i | LastWith(raws, at, i) ::
         names == Some(TextEscape.SplitFrom(Components(raws[i])[at], COMMA, [], false))
  }

  lemma {:induction false} ListDecides(raws: seq<Str>, at: nat, i: int)
    requires LastWith(raws, at, i)
    ensures ListSaid(raws, at) == Some(TextEscape.SplitFrom(Components(raws[i])[at], COMMA, [], false))
    decreases |raws|
  {
    if i < |raws| - 1 {
      var front := raws[..|raws| - 1];
      assert !SaysPart(raws[|raws| - 1], at);
      assert LastWith(front, at, i);
      ListDecides(front, at, i);
    }
  }

  lemma {:induction false} FindList(raws: seq<Str>, at: nat) returns (i: int)
    requires ListSaid(raws, at).Some?
    ensures LastWith(raws, at, i)
    decreases |raws|
  {
    if SaysPart(raws[|raws| - 1], at) {
      i := |raws| - 1;
    } else {
      i := FindList(raws[..|raws| - 1], at);
      forall j | i < j < |raws| ensures !SaysPart(raws[j], at) {
        assert j < |raws| - 1 ==> raws[j] == raws[..|raws| - 1][j];
      }
    }
  }

  lemma ListIsLast(raws: seq<Str>, at: nat)
    ensures ListOfLast(raws, at, ListSaid(raws, at))
  {
    if ListSaid(raws, at).Some? {
      var i := FindList(raws, at);
    }
    forall j | LastWith(raws, at, j)
      ensures ListSaid(raws, at) == Some(TextEscape.SplitFrom(Components(raws[j])[at], COMMA, [], false)) {
      ListDecides(raws, at, j);
    }
  }

  /** The components of the last N line, if there is one. */
  function ComponentsSaid(raws: seq<Str>): Option<seq<Str>> {
    if raws == [] then None
    else if Says(raws[|raws| - 1], N) then Some(Components(raws[|raws| - 1]))
    else ComponentsSaid(raws[..|raws| - 1])
  }

  lemma {:induction false} NameIsSaid(raws: seq<Str>)
    ensures var name, last := NameSaid(raws), ComponentsSaid(raws);
      && name.family == (if last.Some? && |last.value| > 0 then Some(last.value[0]) else None)
      && name.given == (if last.Some? && |last.value| > 1 then Some(last.value[1]) else None)
      && name.additional == ListSaid(raws, 2) && name.prefixes == ListSaid(raws, 3)
        && name.suffixes == ListSaid(raws, 4)
    decreases |raws|
  {
    if raws != [] {
      NameIsSaid(raws[..|raws| - 1]);
    }
  }

  lemma {:induction false} ComponentsDecide(raws: seq<Str>, i: int)
    requires LastOf(raws, N, i)
    ensures ComponentsSaid(raws) == Some(Components(raws[i]))
    decreases |raws|
  {
    if i < |raws| - 1 {
      var front := raws[..|raws| - 1];
      assert !Says(raws[|raws| - 1], N);
      assert LastOf(front, N, i);
      ComponentsDecide(front, i);
    }
  }

  lemma {:induction false} FindName(raws: seq<Str>) returns (i: int)
    requires ComponentsSaid(raws).Some?
    ensures LastOf(raws, N, i)
    decreases |raws|
  {
    if Says(raws[|raws| - 1], N) {
      i := |raws| - 1;
    } else {
      i := FindName(raws[..|raws| - 1]);
      LastEarlier(raws, N, i);
    }
  }

  /** Family and given name are those of the last N line; each list of names that of the last one that gives it. */
  ghost predicate NameOfLast(raws: seq<Str>, name: NameRead) {
    && ((name.family.Some? || name.given.Some?) ==> exists i :: LastOf(raws, N, i))
    && (forall i | LastOf(raws, N, i) ::
          var c := Components(raws[i]);
          && name.family == (if |c| > 0 then Some(c[0]) else None)
          && name.given == (if |c| > 1 then Some(c[1]) else None))
    && ListOfLast(raws, 2, name.additional) && ListOfLast(raws, 3, name.prefixes) && ListOfLast(raws, 4, name.suffixes)
  }

  lemma NameIsLast(raws: seq<Str>)
    ensures NameOfLast(raws, NameSaid(raws))
  {
    NameIsSaid(raws);
    ListIsLast(raws, 2);
    ListIsLast(raws, 3);
    ListIsLast(raws, 4);
    if ComponentsSaid(raws).Some? {
      var i := FindName(raws);
    }
    forall j | LastOf(raws, N, j) ensures ComponentsSaid(raws) == Some(Components(raws[j])) {
      ComponentsDecide(raws, j);
    }
  }

  /** A scheme before a value, in any case, is dropped, and nothing else is. */
  lemma SchemeExactly(scheme: Str, rest: Str, value: Str)
    ensures Lower(scheme) == L("mailto:") ==> StripPrefix(scheme + rest, L("mailto:")) == rest
    ensures Lower(scheme) == L("tel:") ==> StripPrefix(scheme + rest, L("tel:")) == rest
    ensures !(L("mailto:") <= Lower(value)) ==> StripPrefix(value, L("mailto:")) == value
    ensures !(L("tel:") <= Lower(value)) ==> StripPrefix(value, L("tel:")) == value
  {
    var v := scheme + rest;
    assert v[..|scheme|] == scheme && v[|scheme|..] == rest;
    PrefixOfLower(value, L("mailto:"));
    PrefixOfLower(value, L("tel:"));
  }

  lemma PrefixOfLower(value: Str, prefix: Str)
    ensures prefix <= Lower(value) <==> |value| >= |prefix| && Lower(value[..|prefix|]) == prefix
  {
    if |value| >= |prefix| {
      assert Lower(value)[..|prefix|] == Lower(value[..|prefix|]);
    }
  }

  // ---------- the theorem ----------

  predicate Framed(lines: seq<Str>) {
    lines != [] && Upper(lines[0]) == L("BEGIN:VCARD") && Upper(lines[|lines| - 1]) == L("END:VCARD")
  }

  function Inner(lines: seq<Str>): seq<Str> {
    if |lines| < 2 then [] else lines[1..|lines| - 1]
  }

  /** The lines of a body without the empty ones at either end. */
  predicate Trimmed(all: seq<Str>, lines: seq<Str>, from: int, to: int) {
    && 0 <= from <= to <= |all| && lines == all[from..to]
    && (forall i | 0 <= i < from :: all[i] == []) && (forall i | to <= i < |all| :: all[i] == [])
    && (lines != [] ==> lines[0] != [] && lines[|lines| - 1] != [])
  }

  lemma {:induction false} FrontTrimmed(all: seq<Str>) returns (from: nat)
    ensures from <= |all| && TrimFront(all) == all[from..] && forall i | 0 <= i < from :: all[i] == []
    ensures from < |all| ==> all[from] != []
  {
    if all != [] && all[0] == [] {
      from := FrontTrimmed(all[1..]);
      assert all[1..][from..] == all[from + 1..];
      assert forall i | 0 < i < from + 1 :: all[i] == all[1..][i - 1];
      from := from + 1;
    } else {
      from := 0;
      assert all[0..] == all;
    }
  }

  lemma {:induction false} BackTrimmed(all: seq<Str>) returns (to: nat)
    ensures to <= |all| && TrimBack(all) == all[..to] && forall i | to <= i < |all| :: all[i] == []
    ensures to > 0 ==> all[to - 1] != []
  {
    if all != [] && all[|all| - 1] == [] {
      to := BackTrimmed(all[..|all| - 1]);
    } else {
      to := |all|;
      assert all[..|all|] == all;
    }
  }

  lemma TrimExactly(all: seq<Str>) returns (from: int, to: int)
    ensures Trimmed(all, TrimBack(TrimFront(all)), from, to)
  {
    var f := FrontTrimmed(all);
    var t := BackTrimmed(all[f..]);
    from, to := f, f + t;
    assert all[f..][..t] == all[f..f + t];
    forall i | to <= i < |all| ensures all[i] == [] {
      assert all[f..][i - f] == all[i];
    }
  }

  /** The lines make a card. */
  ghost predicate IsCard(lines: seq<Str>) {
    var raws := Inner(lines);
    && Framed(lines) && (forall i | 0 <= i < |raws| :: Acceptable(raws[i]))
    && (exists i :: LastVersion(raws, i))
    && (exists i :: LastOf(raws, UID, i) && TextIn(raws[i], UID) != [])
    && (exists i :: LastOf(raws, FN, i) && TextIn(raws[i], FN) != [])
  }

  /** What the card holds, property by property. */
  ghost predicate CardOf(raws: seq<Str>, card: Card) {
    && VersionOfLast(raws, card.version)
    && (forall k :: if IsText(k) then TextOfLast(raws, k, Text(card, k)) else Text(card, k).None?)
    && card.photoUrls == Gathered(raws, Link)
    && (forall k | k in {EMAIL, TEL, URL} :: TypedOf(card, k) == Gathered(raws, Value(k)))
    && card.addresses == Gathered(raws, Place)
    && card.preserved == Gathered(raws, Kept)
    && NameOfLast(raws, card.name)
  }

  lemma HoldsCard(raws: seq<Str>)
    requires ConsumeAll(EMPTY_CARD, raws).Some?
    ensures CardOf(raws, ConsumeAll(EMPTY_CARD, raws).value)
  {
    AllDo(raws);
    VersionIsLast(raws);
    NameIsLast(raws);
    forall k ensures if IsText(k) then TextOfLast(raws, k, Text(ConsumeAll(EMPTY_CARD, raws).value, k))
                     else Text(ConsumeAll(EMPTY_CARD, raws).value, k).None? {
      AllSay(raws, k);
      TextIsLast(raws, k);
    }
    forall k | k in {EMAIL, TEL, URL}
      ensures TypedOf(ConsumeAll(EMPTY_CARD, raws).value, k) == Gathered(raws, Value(k)) {
      AllSay(raws, k);
    }
  }

  /**
   A body is read as a card exactly when its lines, without the empty ones at
   either end, are framed, every line between is empty or has a colon, some
   version line says 3.0 or 4.0, and the last uid and the last name are not
   empty; and then each field is decided by its own lines.
   */
  lemma ReadingExactly(body: Str, lines: seq<Str>, from: int, to: int)
    requires Trimmed(LineFolding.VCardUnfold(body), lines, from, to)
    ensures Reading(body).Ok? <==> IsCard(lines)
    ensures Reading(body).Ok? ==> CardOf(Inner(lines), Reading(body).value)
  {
    var f, t := TrimExactly(LineFolding.VCardUnfold(body));
    TrimmedOnce(LineFolding.VCardUnfold(body), lines, from, to, TrimBack(TrimFront(LineFolding.VCardUnfold(body))), f,
      t);
    LinesExactly(lines);
  }

  lemma TrimmedOnce(all: seq<Str>, a: seq<Str>, from: int, to: int, b: seq<Str>, f: int, t: int)
    requires Trimmed(all, a, from, to) && Trimmed(all, b, f, t)
    ensures a == b
  {
    if a != [] {
      assert all[from] != [] && all[to - 1] != [];
    }
    if b != [] {
      assert all[f] != [] && all[t - 1] != [];
    }
  }

  lemma LinesExactly(lines: seq<Str>)
    ensures ReadLines(lines).Ok? <==> IsCard(lines)
    ensures ReadLines(lines).Ok? ==> CardOf(Inner(lines), ReadLines(lines).value)
  {
    if Framed(lines) {
      FramesDiffer(lines);
      AllAcceptable(Inner(lines));
      if ConsumeAll(EMPTY_CARD, Inner(lines)).Some? {
        HoldsCard(Inner(lines));
        FinishExactly(Inner(lines), ConsumeAll(EMPTY_CARD, Inner(lines)).value);
      }
    }
  }

  lemma FinishExactly(raws: seq<Str>, card: Card)
    requires CardOf(raws, card)
    ensures Finish(Some(card)).Ok? <==>
      && (exists i :: LastVersion(raws, i))
      && (exists i :: LastOf(raws, UID, i) && TextIn(raws[i], UID) != [])
      && (exists i :: LastOf(raws, FN, i) && TextIn(raws[i], FN) != [])
    ensures Finish(Some(card)).Ok? ==> Finish(Some(card)).value == card
  {
    TextPresent(raws, card, UID);
    TextPresent(raws, card, FN);
  }

  lemma TextPresent(raws: seq<Str>, card: Card, k: Known)
    requires TextOfLast(raws, k, Text(card, k))
    ensures TextOf(card, k) != [] <==> exists i :: LastOf(raws, k, i) && TextIn(raws[i], k) != []
  {
  }

  lemma FramesDiffer(lines: seq<Str>)
    requires Framed(lines)
    ensures |lines| >= 2 && Inner(lines) == lines[1..|lines| - 1]
  {
    assert L("BEGIN:VCARD")[0] != L("END:VCARD")[0];
  }

  // ---------- line ends and folds ----------

  /** Bodies that differ in how their lines end are read alike. */
  lemma NormalizedAlike(a: Str, b: Str)
    requires Normalize(a) == Normalize(b)
    ensures Reading(a) == Reading(b)
  {
    LineFolding.NewlinePasses(a);
    LineFolding.NewlinePasses(b);
  }

  lemma {:induction false} LfIsNormal(s: Str)
    requires Paired(s)
    ensures Normalize(s) == Lf(s)
    decreases |s|
  {
    if s != [] {
      PairedHead(s);
      LfIsNormal(s[if StartsWithCrlf(s) then 2 else 1..]);
    }
  }

  lemma {:induction false} SplitAtLf(a: Str, rest: Str)
    requires OneLine(a)
    ensures Split(a + ([LF] + rest), LF) == [a] + Split(rest, LF)
  {
    VCardRoundTrip.SplitAfter(a, LF, rest);
  }

  function FoldLines(folds: seq<Fold>): (lines: seq<Str>)
    ensures |lines| == |folds|
  {
    seq(|folds|, i requires 0 <= i < |folds| => [folds[i].blank] + folds[i].text)
  }

  /** The physical lines of a body. */
  function Physical(fs: seq<Folded>): seq<Str> {
    if fs == [] then [] else [fs[0].text] + (FoldLines(fs[0].folds) + Physical(fs[1..]))
  }

  /** A line and its continuations, cut at every line end. */
  lemma {:induction false} FoldsSplit(a: Str, folds: seq<Fold>, crlf: bool, rest: Str)
    requires OneLine(a) && FoldsFit(folds) && Paired(rest)
    ensures Paired(FoldsText(folds) + (LineEnd(crlf) + rest))
    ensures Split(a + Lf(FoldsText(folds) + (LineEnd(crlf) + rest)), LF)
      == [a] + (FoldLines(folds) + Split(Lf(rest), LF))
    decreases |folds|
  {
    var ended := LineEnd(crlf) + rest;
    LfLineEnd(crlf, rest);
    FoldsPaired(folds, ended);
    if folds == [] {
      assert FoldsText(folds) + ended == ended;
      SplitAtLf(a, Lf(rest));
      assert FoldLines(folds) + Split(Lf(rest), LF) == Split(Lf(rest), LF);
    } else {
      var f, more := folds[0], FoldsText(folds[1..]) + ended;
      var line := [f.blank] + f.text;
      BlankOneLine(f.blank);
      FoldsPaired(folds[1..], ended);
      FoldsSplit(line, folds[1..], crlf, rest);
      FoldApart(f, FoldsText(folds[1..]), ended);
      LfText(f.text, more);
      LfText([f.blank], f.text + more);
      LfLineEnd(f.crlf, [f.blank] + (f.text + more));
      ConcatAssociates([f.blank], f.text, Lf(more));
      SplitAtLf(a, line + Lf(more));
      FoldLinesStep(folds, Split(Lf(rest), LF));
    }
  }

  lemma FoldLinesStep(folds: seq<Fold>, rest: seq<Str>)
    requires folds != []
    ensures FoldLines(folds) + rest == [[folds[0].blank] + folds[0].text] + (FoldLines(folds[1..]) + rest)
  {
    assert FoldLines(folds) == [[folds[0].blank] + folds[0].text] + FoldLines(folds[1..]);
  }

  lemma {:induction false} BodySplits(fs: seq<Folded>)
    requires AllFit(fs)
    ensures Split(Lf(Body(fs)), LF) == Physical(fs) + [[]]
  {
    BodyPaired(fs);
    if fs != [] {
      var f, rest := fs[0], Body(fs[1..]);
      BodySplits(fs[1..]);
      BodyPaired(fs[1..]);
      FoldsSplit(f.text, f.folds, f.crlf, rest);
      LfText(f.text, FoldsText(f.folds) + (LineEnd(f.crlf) + rest));
      ConcatAssociates(FoldLines(f.folds), Physical(fs[1..]), [[]]);
      ConcatAssociates([f.text], FoldLines(f.folds) + Physical(fs[1..]), [[]]);
    }
  }

  /** Continuations end up on the line before them, whichever blank they start with. */
  lemma {:induction false} FoldsMerge(unfolded: seq<Str>, last: Str, folds: seq<Fold>, rest: seq<Str>)
    requires FoldsFit(folds)
    ensures LineFolding.Merge(unfolded + [last], FoldLines(folds) + rest)
         == LineFolding.Merge(unfolded + [last + Rest(folds)], rest)
    decreases |folds|
  {
    if folds == [] {
      assert FoldLines(folds) + rest == rest && last + Rest(folds) == last;
    } else {
      var line := [folds[0].blank] + folds[0].text;
      var all := FoldLines(folds) + rest;
      FoldLinesStep(folds, rest);
      BlankOneLine(folds[0].blank);
      assert all[0] == line && all[1..] == FoldLines(folds[1..]) + rest;
      assert line[1..] == folds[0].text;
      PushFold(unfolded, last, line);
      FoldsMerge(unfolded, last + folds[0].text, folds[1..], rest);
      ConcatAssociates(last, folds[0].text, Rest(folds[1..]));
    }
  }

  lemma PushFold(unfolded: seq<Str>, last: Str, line: Str)
    requires LineFolding.StartsBlank(line)
    ensures LineFolding.Push(unfolded + [last], line) == unfolded + [last + line[1..]]
  {
    assert (unfolded + [last])[..|unfolded|] == unfolded;
  }

  lemma {:induction false} BodyMerges(unfolded: seq<Str>, fs: seq<Folded>)
    requires AllFit(fs)
    ensures LineFolding.Merge(unfolded, Physical(fs) + [[]]) == unfolded + (Lines(fs) + [[]])
    decreases |fs|
  {
    if fs == [] {
      var empty: seq<Str> := [[]];
      assert Physical(fs) + [[]] == empty && empty[1..] == [];
      assert LineFolding.Push(unfolded, []) == unfolded + [[]];
      assert Lines(fs) + [[]] == [[]];
    } else {
      var f, rest := fs[0], Physical(fs[1..]) + [[]];
      var all := Physical(fs) + [[]];
      ConcatAssociates(FoldLines(f.folds), Physical(fs[1..]), [[]]);
      ConcatAssociates([f.text], FoldLines(f.folds) + Physical(fs[1..]), [[]]);
      assert all[0] == f.text && all[1..] == FoldLines(f.folds) + rest;
      FoldsMerge(unfolded, f.text, f.folds, rest);
      BodyMerges(unfolded + [f.text + Rest(f.folds)], fs[1..]);
      assert Lines(fs) == [f.text + Rest(f.folds)] + Lines(fs[1..]);
      ConcatAssociates(unfolded, [f.text + Rest(f.folds)], Lines(fs[1..]) + [[]]);
      ConcatAssociates([f.text + Rest(f.folds)], Lines(fs[1..]), [[]]);
    }
  }

  /** A body unfolds to the lines that are meant, however they end and are folded. */
  lemma BodyUnfolds(fs: seq<Folded>)
    requires AllFit(fs)
    ensures LineFolding.VCardUnfold(Body(fs)) == Lines(fs) + [[]]
  {
    BodyPaired(fs);
    LfIsNormal(Body(fs));
    LineFolding.NewlinePasses(Body(fs));
    BodySplits(fs);
    BodyMerges([], fs);
    assert [] + (Lines(fs) + [[]]) == Lines(fs) + [[]];
  }

  /** So a body of lines, the first and the last not empty, is a card exactly when the lines make one. */
  lemma ReadsLines(fs: seq<Folded>)
    requires AllFit(fs) && fs != [] && Lines(fs)[0] != [] && Lines(fs)[|fs| - 1] != []
    ensures Reading(Body(fs)).Ok? <==> IsCard(Lines(fs))
    ensures Reading(Body(fs)).Ok? ==> CardOf(Inner(Lines(fs)), Reading(Body(fs)).value)
  {
    BodyUnfolds(fs);
    TrimmedAlready(Lines(fs));
    ReadingExactly(Body(fs), Lines(fs), 0, |fs|);
  }

  lemma TrimmedAlready(lines: seq<Str>)
    requires lines != [] && lines[0] != [] && lines[|lines| - 1] != []
    ensures Trimmed(lines + [[]], lines, 0, |lines|)
  {
    assert (lines + [[]])[0..|lines|] == lines;
  }

  // ---------- what printing accepts ----------

  /** A letter of the Latin alphabet, a digit or a hyphen. */
  predicate TypeUnit(u: Unit) {
    || 'A' as int <= u <= 'Z' as int || 'a' as int <= u <= 'z' as int || '0' as int <= u <= '9' as int
      || u == '-' as int
  }

  predicate TypesFit(types: seq<Str>) {
    forall t | t in types :: t != [] && forall u | u in t :: TypeUnit(u)
  }

  /** No path separator, escape or line break in the uid, which becomes part of a url. */
  predicate UidFits(uid: Str) {
    forall u | u in uid :: u != '/' as int && u != '%' as int && u != '\\' as int && u != CR && u != LF
  }

  predicate CardFits(input: ContactInput) {
    && UidFits(input.uid)
    && (forall v | v in input.emails + input.telephones + input.urls :: TypesFit(v.types))
    && (forall a | a in input.addresses :: TypesFit(a.types))
    && (forall v | v in input.urls :: OneLine(v.value))
    && (input.photoUrls.Some? ==> forall url | url in input.photoUrls.value :: OneLine(url))
    && (input.birthday.Some? ==> OneLine(input.birthday.value))
  }

  lemma TypesExactly(types: seq<Str>)
    ensures ValidTypes(types) <==> TypesFit(types)
  {
    if ValidTypes(types) {
      forall t | t in types ensures t != [] && forall u | u in t :: TypeUnit(u) {
        var i :| 0 <= i < |types| && types[i] == t;
        assert ValidType(types[i]);
      }
    }
    if TypesFit(types) {
      forall i | 0 <= i < |types| ensures ValidType(types[i]) {
        assert types[i] in types;
        forall j | 0 <= j < |types[i]| ensures TypeUnit(types[i][j]) {
          assert types[i][j] in types[i];
        }
      }
    }
  }

  lemma ValuesExactly(values: seq<TypedValue>)
    ensures ValidValues(values) <==> forall v | v in values :: TypesFit(v.types)
    ensures OneLineValues(values) <==> forall v | v in values :: OneLine(v.value)
  {
    forall i | 0 <= i < |values|
      ensures values[i] in values && (ValidTypes(values[i].types) <==> TypesFit(values[i].types)) {
      TypesExactly(values[i].types);
    }
  }

  lemma AddressesExactly(addresses: seq<Address>)
    ensures (forall i | 0 <= i < |addresses| :: ValidTypes(addresses[i].types))
       <==> forall a | a in addresses :: TypesFit(a.types)
  {
    forall i | 0 <= i < |addresses|
      ensures addresses[i] in addresses && (ValidTypes(addresses[i].types) <==> TypesFit(addresses[i].types)) {
      TypesExactly(addresses[i].types);
    }
  }

  lemma UidExactly(uid: Str)
    ensures UnsafeUid(uid) <==> !UidFits(uid)
  {
    if UidFits(uid) {
      forall i | 0 <= i < |uid| ensures uid[i] !in {CR, LF, SLASH, PERCENT, BACKSLASH} {
        assert uid[i] in uid;
      }
    } else {
      var u :| u in uid && (u == '/' as int || u == '%' as int || u == '\\' as int || u == CR || u == LF);
      var i :| 0 <= i < |uid| && uid[i] == u;
    }
  }

  /** Printing refuses an input exactly for these reasons, and a preserved line that has no name. */
  lemma AcceptedExactly(input: ContactInput, preserved: seq<Str>)
    ensures Printing(input, preserved).Ok?
       <==> CardFits(input) && forall raw | raw in preserved :: OneLine(raw) && ContentLine(raw).Some?
  {
    UidExactly(input.uid);
    ValuesExactly(input.emails);
    ValuesExactly(input.telephones);
    ValuesExactly(input.urls);
    AddressesExactly(input.addresses);
  }

  /** A preserved line that is printed again: no property the printer writes, or a photo that is not replaced. */
  predicate SaysAgain(raw: Str, photos: Option<seq<Str>>) {
    (forall k :: !Says(raw, k)) || (Says(raw, PHOTO) && photos.None?)
  }

  /** Every preserved line is judged by itself, and the order stays. */
  lemma {:induction false} KeptLineByLine(front: seq<Str>, back: seq<Str>, replace: bool)
    ensures VCard.Kept(front + back, replace) == VCard.Kept(front, replace) + VCard.Kept(back, replace)
  {
    if front == [] {
      assert front + back == back;
    } else {
      KeptLineByLine(front[1..], back, replace);
      TailOfConcat(front, back);
      var head := if PrintsAgain(front[0], replace) then [front[0]] else [];
      ConcatAssociates(head, VCard.Kept(front[1..], replace), VCard.Kept(back, replace));
    }
  }

  lemma AgainExactly(raw: Str, photos: Option<seq<Str>>)
    requires ContentLine(raw).Some?
    ensures VCard.Kept([raw], photos.Some?) == if SaysAgain(raw, photos) then [raw] else []
  {
    forall k ensures raw != [] && (Says(raw, k) <==> KnownOf(ContentLine(raw).value.name) == Some(k)) {
      SaysIsKnown(raw, k);
    }
    assert [raw][1..] == [];
  }
}
