/**
 Reading calendar bodies that other programs wrote: any line ends and folds,
 reminders inside the component, properties in any case and any number.
 */
module ICalReading {
  import opened JsString
  import opened Results
  import opened QuotedScan
  import opened ICalLine
  import opened ICalObject
  import opened FoldedBody
  import opened ICalLineEnds
  import ICalText
  import LineFolding
  import TextEscape

  // ---------- bodies as they stand ----------

  /** Continuations unfold to their texts, whatever follows. */
  lemma {:induction false} FoldsUnfold(folds: seq<Fold>, rest: Str)
    requires FoldsFit(folds) && Paired(rest)
    ensures Paired(FoldsText(folds) + rest)
    ensures LineFolding.ICalUnfold(Lf(FoldsText(folds) + rest)) == Rest(folds) + LineFolding.ICalUnfold(Lf(rest))
  {
    if folds == [] {
      assert FoldsText(folds) + rest == rest;
    } else {
      var f, more := folds[0], FoldsText(folds[1..]) + rest;
      FoldsUnfold(folds[1..], rest);
      FoldApart(f, FoldsText(folds[1..]), rest);
      BlankOneLine(f.blank);
      LfText(f.text, more);
      LfText([f.blank], f.text + more);
      LfLineEnd(f.crlf, [f.blank] + (f.text + more));
      UnfoldLf([f.blank] + (f.text + Lf(more)));
      assert ([f.blank] + (f.text + Lf(more)))[1..] == f.text + Lf(more);
      LineFolding.UnfoldSkips(f.text, Lf(more));
      ConcatAssociates(f.text, Rest(folds[1..]), LineFolding.ICalUnfold(Lf(rest)));
    }
  }

  /** One line with its continuations, and the body after it. */
  lemma LineUnfolds(f: Folded, rest: Str)
    requires OneLine(f.text) && FoldsFit(f.folds) && Paired(rest) && !LineFolding.StartsBlank(rest)
    ensures var text := f.text + (FoldsText(f.folds) + (LineEnd(f.crlf) + rest));
      LineFolding.ICalUnfold(Lf(text)) == (f.text + Rest(f.folds)) + ([LF] + LineFolding.ICalUnfold(Lf(rest)))
  {
    var ended := LineEnd(f.crlf) + rest;
    LfLineEnd(f.crlf, rest);
    LfStartsBlank(rest);
    UnfoldLf(Lf(rest));
    FoldsUnfold(f.folds, ended);
    LfText(f.text, FoldsText(f.folds) + ended);
    LineFolding.UnfoldSkips(f.text, Lf(FoldsText(f.folds) + ended));
    ConcatAssociates(f.text, Rest(f.folds), [LF] + LineFolding.ICalUnfold(Lf(rest)));
  }

  /** A body unfolds to the lines that are meant, with LF for every line end. */
  lemma {:induction false} BodyUnfolds(fs: seq<Folded>)
    requires AllFit(fs)
    ensures Paired(Body(fs)) && LineFolding.ICalUnfold(Lf(Body(fs))) == LfEnded(Lines(fs))
  {
    BodyPaired(fs);
    if fs != [] {
      BodyUnfolds(fs[1..]);
      BodyPaired(fs[1..]);
      LineUnfolds(fs[0], Body(fs[1..]));
      assert Lines(fs)[1..] == Lines(fs[1..]);
    }
  }

  /** Bodies of the same lines are read alike, however the lines end and are folded. */
  lemma SameLinesReadAlike(a: seq<Folded>, b: seq<Folded>)
    requires AllFit(a) && AllFit(b) && Lines(a) == Lines(b)
    ensures Reading(Body(a)) == Reading(Body(b))
  {
    BodyUnfolds(a);
    BodyUnfolds(b);
    LfUnfold(Body(a));
    LfUnfold(Body(b));
    ReadAlike(Body(a), Body(b));
  }

  lemma {:induction false} LfOfEnded(lines: seq<Str>)
    requires AllOneLine(lines)
    ensures Paired(ICalText.Ended(lines)) && Lf(ICalText.Ended(lines)) == LfEnded(lines)
  {
    if lines != [] {
      LfOfEnded(lines[1..]);
      LfLineEnd(true, ICalText.Ended(lines[1..]));
      LfText(lines[0], CRLF + ICalText.Ended(lines[1..]));
    }
  }

  /** What the parser makes of a body is what it makes of the lines that are meant. */
  lemma ReadingOfLines(fs: seq<Folded>)
    requires AllFit(fs)
    ensures Reading(Body(fs)) == ReadUnfolded(ICalText.Ended(Lines(fs)))
  {
    var unfolded := LineFolding.ICalUnfold(Body(fs));
    BodyUnfolds(fs);
    LfUnfold(Body(fs));
    LfReading(unfolded);
    LinesOneLine(fs);
    LfOfEnded(Lines(fs));
    LfReading(ICalText.Ended(Lines(fs)));
    assert Reading(Body(fs)) == ReadUnfolded(unfolded);
  }

  // ---------- reminders inside the component ----------

  /** A component line, or a reminder with its own lines. */
  datatype Item = Plain(line: Str) | Alarm(lines: seq<Str>)

  function ItemLines(item: Item): (lines: seq<Str>)
    ensures lines != []
  {
    match item
    case Plain(line) => [line]
    case Alarm(lines) => [BEGIN_ALARM] + (lines + [END_ALARM])
  }

  function Flat(items: seq<Item>): seq<Str> {
    if items == [] then [] else ItemLines(items[0]) + Flat(items[1..])
  }

  /** The component without its reminders. */
  function Plains(items: seq<Item>): seq<Str> {
    if items == [] then [] else (if items[0].Plain? then [items[0].line] else []) + Plains(items[1..])
  }

  /** What removing the reminders leaves: an empty line for each. */
  function Emptied(items: seq<Item>): seq<Str> {
    if items == [] then [] else [if items[0].Plain? then items[0].line else []] + Emptied(items[1..])
  }

  predicate ItemFits(item: Item) {
    match item
    case Plain(line) => OneLine(line) && !ICalText.EndsWith(line, BEGIN_ALARM)
    case Alarm(lines) => lines != [] && AllOneLine(lines) && forall i | 0 <= i < |lines| :: !(END_ALARM <= lines[i])
  }

  predicate ItemsFit(items: seq<Item>) {
    forall i | 0 <= i < |items| :: ItemFits(items[i])
  }

  lemma AlarmWords()
    ensures OneLine(BEGIN_ALARM) && BEGIN_ALARM != [] && OneLine(END_ALARM) && END_ALARM != []
  {
  }

  lemma {:induction false} RemoveSkipsLine(a: Str, rest: Str, open: Str, close: Str)
    requires OneLine(a) && OneLine(open) && open != [] && !ICalText.EndsWith(a, open)
    ensures ICalText.RemoveSections(a + (CRLF + rest), open, close)
      == a + (CRLF + ICalText.RemoveSections(rest, open, close))
    decreases |a|
  {
    var s := a + (CRLF + rest);
    if a == [] {
      assert s == CRLF + rest;
      RemoveSkipsEnd(rest, open, close);
    } else {
      ICalText.NotOpenedInLine(a, rest, open);
      ICalText.EndsWithTail(a, open);
      RemoveSkipsLine(a[1..], rest, open, close);
      TailOfConcat(a, CRLF + rest);
      SectionSkips(s, open, close);
      HeadAndTail(a);
      ConcatAssociates([a[0]], a[1..], CRLF + ICalText.RemoveSections(rest, open, close));
    }
  }

  /** A text on one line holds no section. */
  lemma {:induction false} RemoveOneLine(a: Str, open: Str, close: Str)
    requires OneLine(a)
    ensures ICalText.RemoveSections(a, open, close) == a
  {
    OneLineNeverCloses(a, close);
    ICalText.NoSectionWithoutClose(a, open, close);
  }

  lemma {:induction false} OneLineNeverCloses(a: Str, close: Str)
    requires OneLine(a)
    ensures ICalText.CloseIndex(a, close).None?
  {
    if a != [] {
      assert a[0] in a;
      OneLineNeverCloses(a[1..], close);
    }
  }

  /** The text of a reminder in front of more text is removed whole. */
  lemma RemoveAlarm(lines: seq<Str>, rest: Str)
    requires ItemFits(Alarm(lines))
    ensures var text := BEGIN_ALARM + (CRLF + (ICalText.Ended(lines) + (END_ALARM + rest)));
      ICalText.RemoveSections(text, BEGIN_ALARM, END_ALARM) == ICalText.RemoveSections(rest, BEGIN_ALARM, END_ALARM)
  {
    var inner := ICalText.Ended(lines) + (END_ALARM + rest);
    var text := BEGIN_ALARM + (CRLF + inner);
    AlarmWords();
    ICalText.CloseAfterLines(lines, END_ALARM + rest, END_ALARM);
    OpenedAt(BEGIN_ALARM, inner);
    ClosedAfter(lines, END_ALARM, rest);
    assert text != [];
  }

  lemma OpenedAt(open: Str, inner: Str)
    ensures var text := open + (CRLF + inner);
      ICalText.OpenLength(text, open).Some? && ICalText.Opened(text, open) == inner
  {
    var text := open + (CRLF + inner);
    assert text[|open|..] == CRLF + inner && text[|open| + 2..] == inner;
  }

  lemma ClosedAfter(lines: seq<Str>, close: Str, rest: Str)
    requires lines != []
    requires ICalText.CloseIndex(ICalText.Ended(lines) + (close + rest), close) == Some(|Join(lines, CRLF)|)
    ensures ICalText.Closed(ICalText.Ended(lines) + (close + rest), close) == rest
  {
    var joined := Join(lines, CRLF);
    ICalText.EndedIsJoin(lines);
    var inner := ICalText.Ended(lines) + (close + rest);
    var tail := CRLF + (close + rest);
    ConcatAssociates(joined, CRLF, close + rest);
    AfterFront(joined, tail);
    AfterFront(CRLF, close + rest);
    AfterFront(CRLF + close, rest);
    ConcatAssociates(CRLF, close, rest);
    assert inner == joined + tail;
  }

  lemma AfterFront(a: Str, b: Str)
    ensures (a + b)[|a|..] == b
  {
  }

  /** The lines of an item in front of other lines. */
  lemma JoinedItem(item: Item, rest: seq<Str>)
    ensures var front := if item.Plain? then item.line
                         else BEGIN_ALARM + (CRLF + (ICalText.Ended(item.lines) + END_ALARM));
      Join(ItemLines(item) + rest, CRLF) == front + (if rest == [] then [] else CRLF + Join(rest, CRLF))
  {
    match item
    case Plain(line) => JoinStep(line, rest);
    case Alarm(lines) =>
      assert ItemLines(item) + rest == [BEGIN_ALARM] + (lines + ([END_ALARM] + rest));
      JoinStep(BEGIN_ALARM, lines + ([END_ALARM] + rest));
      JoinEnded(lines, [END_ALARM] + rest);
      JoinStep(END_ALARM, rest);
      var after := if rest == [] then [] else CRLF + Join(rest, CRLF);
      ConcatAssociates(ICalText.Ended(lines), END_ALARM, after);
      ConcatAssociates(CRLF, ICalText.Ended(lines) + END_ALARM, after);
      ConcatAssociates(BEGIN_ALARM, CRLF + (ICalText.Ended(lines) + END_ALARM), after);
  }

  lemma JoinStep(first: Str, rest: seq<Str>)
    ensures Join([first] + rest, CRLF) == first + (if rest == [] then [] else CRLF + Join(rest, CRLF))
  {
    assert ([first] + rest)[1..] == rest;
    if rest == [] {
      assert first + [] == first;
    } else {
      ConcatAssociates(first, CRLF, Join(rest, CRLF));
    }
  }

  lemma {:induction false} JoinEnded(lines: seq<Str>, rest: seq<Str>)
    requires rest != []
    ensures Join(lines + rest, CRLF) == ICalText.Ended(lines) + Join(rest, CRLF)
  {
    if lines == [] {
      assert lines + rest == rest;
    } else {
      JoinEnded(lines[1..], rest);
      assert lines + rest == [lines[0]] + (lines[1..] + rest);
      JoinStep(lines[0], lines[1..] + rest);
      ICalText.EndedStep(lines, Join(rest, CRLF));
    }
  }

  /** Removing the reminders and splitting leaves the other lines, and an empty one for each reminder. */
  lemma {:induction false} RemovedAndSplit(items: seq<Item>)
    requires items != [] && ItemsFit(items)
    ensures ICalText.SplitLines(ICalText.RemoveSections(Join(Flat(items), CRLF), BEGIN_ALARM, END_ALARM))
      == Emptied(items)
  {
    var item, rest := items[0], Flat(items[1..]);
    var more: Str := if rest == [] then [] else CRLF + Join(rest, CRLF);
    AlarmWords();
    JoinedItem(item, rest);
    var line := if item.Plain? then item.line else [];
    if items[1..] == [] {
      RemoveLast(item);
      ICalText.SplitOneLine(line, []);
    } else {
      var removed := ICalText.RemoveSections(Join(rest, CRLF), BEGIN_ALARM, END_ALARM);
      FlatNotEmpty(items[1..]);
      RemovedAndSplit(items[1..]);
      RemoveFirst(item, Join(rest, CRLF));
      ICalText.SplitOneLine(line, removed);
    }
  }

  lemma FlatNotEmpty(items: seq<Item>)
    requires items != []
    ensures Flat(items) != []
  {
  }

  lemma RemoveLast(item: Item)
    requires ItemFits(item)
    ensures var front := if item.Plain? then item.line
                         else BEGIN_ALARM + (CRLF + (ICalText.Ended(item.lines) + END_ALARM));
      ICalText.RemoveSections(front + [], BEGIN_ALARM, END_ALARM) == if item.Plain? then item.line else []
  {
    match item
    case Plain(line) =>
      assert line + [] == line;
      RemoveOneLine(line, BEGIN_ALARM, END_ALARM);
    case Alarm(lines) =>
      RemoveAlarm(lines, []);
      assert END_ALARM + [] == END_ALARM;
      var front := BEGIN_ALARM + (CRLF + (ICalText.Ended(lines) + END_ALARM));
      assert front + [] == front;
  }

  lemma RemoveFirst(item: Item, rest: Str)
    requires ItemFits(item)
    ensures var front := if item.Plain? then item.line
                         else BEGIN_ALARM + (CRLF + (ICalText.Ended(item.lines) + END_ALARM));
      ICalText.RemoveSections(front + (CRLF + rest), BEGIN_ALARM, END_ALARM)
      == (if item.Plain? then item.line else []) + (CRLF + ICalText.RemoveSections(rest, BEGIN_ALARM, END_ALARM))
  {
    AlarmWords();
    match item
    case Plain(line) => RemoveSkipsLine(line, rest, BEGIN_ALARM, END_ALARM);
    case Alarm(lines) =>
      var after := CRLF + rest;
      RemoveAlarm(lines, after);
      RemoveSkipsEnd(rest, BEGIN_ALARM, END_ALARM);
      ConcatAssociates(ICalText.Ended(lines), END_ALARM, after);
      ConcatAssociates(CRLF, ICalText.Ended(lines) + END_ALARM, after);
      ConcatAssociates(BEGIN_ALARM, CRLF + (ICalText.Ended(lines) + END_ALARM), after);
      var removed := ICalText.RemoveSections(rest, BEGIN_ALARM, END_ALARM);
      assert [] + (CRLF + removed) == CRLF + removed;
  }

  lemma EmptyLineSaysNothing(name: Str)
    ensures IfNamed([], name) == []
  {
  }

  lemma {:induction false} EmptiedSaysTheSame(items: seq<Item>, name: Str)
    ensures AllNamed(Emptied(items), name) == AllNamed(Plains(items), name)
  {
    if items != [] {
      EmptiedSaysTheSame(items[1..], name);
      EmptyLineSaysNothing(name);
      assert Emptied(items)[1..] == Emptied(items[1..]);
      if items[0].Plain? {
        assert Plains(items)[1..] == Plains(items[1..]);
      } else {
        assert Plains(items) == Plains(items[1..]);
        assert [] + AllNamed(Emptied(items[1..]), name) == AllNamed(Emptied(items[1..]), name);
      }
    }
  }

  lemma SameNamedSameReading(task: bool, a: seq<Str>, b: seq<Str>)
    requires forall name :: AllNamed(a, name) == AllNamed(b, name)
    ensures ReadLines(task, a) == ReadLines(task, b)
  {
  }

  lemma {:induction false} FlatOneLine(items: seq<Item>)
    requires ItemsFit(items)
    ensures AllOneLine(Flat(items))
  {
    if items != [] {
      FlatOneLine(items[1..]);
      AlarmWords();
      assert ItemFits(items[0]);
      assert AllOneLine(ItemLines(items[0]));
      AllOneLineConcat(ItemLines(items[0]), Flat(items[1..]));
    }
  }

  /**
   A body that holds a component is read as the component's own lines, whatever
   ends and folds the lines, whatever stands around the component, and as if its
   reminders were not there.
   */
  lemma ReadsComponent(fs: seq<Folded>, task: bool, before: seq<Str>, items: seq<Item>, after: seq<Str>)
    requires AllFit(fs) && items != [] && ItemsFit(items) && Join(Flat(items), CRLF) != []
    requires Lines(fs) == before + ([Begin(task)] + (Flat(items) + ([End(task)] + after)))
    requires task <==> ICalText.SomeTests(Lines(fs), Begin(true))
    requires forall i | 0 <= i < |before| :: !ICalText.EndsWith(before[i], Begin(task))
    requires forall i | 0 <= i < |Flat(items)| :: !(End(task) <= Flat(items)[i])
    ensures Reading(Body(fs)) == ReadLines(task, Plains(items))
  {
    var lines := Flat(items);
    LinesOneLine(fs);
    FlatOneLine(items);
    FlatNotEmpty(items);
    MarkersOneLine(true);
    MarkersOneLine(task);
    assert AllOneLine(before) by {
      forall i | 0 <= i < |before| ensures OneLine(before[i]) { assert before[i] == Lines(fs)[i]; }
    }
    ReadingOfLines(fs);
    ICalText.TestLines(Lines(fs), Begin(true));
    ICalText.SectionOfLines(before, Begin(task), lines, End(task), after);
    RemovedAndSplit(items);
    forall name ensures AllNamed(Emptied(items), name) == AllNamed(Plains(items), name) {
      EmptiedSaysTheSame(items, name);
    }
    SameNamedSameReading(task, Emptied(items), Plains(items));
  }

  // ---------- which lines decide ----------

  predicate Names(line: Str, p: Property) {
    ParseLine(line).Some? && ParseLine(line).value.name == PropertyName(p)
  }

  function ValueOf(line: Str): Str
    requires ParseLine(line).Some?
  {
    ParseLine(line).value.value
  }

  /** The first line of a property. */
  predicate FirstOf(lines: seq<Str>, p: Property, i: int) {
    0 <= i < |lines| && Names(lines[i], p) && forall j | 0 <= j < i :: !Names(lines[j], p)
  }

  /** All lines of a property, in order. */
  function Picked(lines: seq<Str>, p: Property): (r: seq<Str>)
    ensures forall i | 0 <= i < |r| :: Names(r[i], p)
  {
    if lines == [] then [] else (if Names(lines[0], p) then [lines[0]] else []) + Picked(lines[1..], p)
  }

  lemma NamedHead(lines: seq<Str>, p: Property)
    requires lines != []
    ensures AllNamed(lines, PropertyName(p)) ==
      (if Names(lines[0], p) then [ParseLine(lines[0]).value] else []) + AllNamed(lines[1..], PropertyName(p))
  {
  }

  lemma FirstLater(lines: seq<Str>, p: Property, i: int)
    requires lines != [] && !Names(lines[0], p) && FirstOf(lines[1..], p, i)
    ensures FirstOf(lines, p, i + 1)
  {
    forall j | 0 <= j < i + 1 ensures !Names(lines[j], p) {
      assert j > 0 ==> lines[j] == lines[1..][j - 1];
    }
  }

  lemma {:induction false} NoneNamed(lines: seq<Str>, p: Property)
    requires AllNamed(lines, PropertyName(p)) == []
    ensures forall j | 0 <= j < |lines| :: !Names(lines[j], p)
  {
    if lines != [] {
      NamedHead(lines, p);
      NoneNamed(lines[1..], p);
      assert forall j | 0 < j < |lines| :: lines[j] == lines[1..][j - 1];
    }
  }

  lemma {:induction false} NamedAreFirst(lines: seq<Str>, p: Property) returns (i: int)
    requires AllNamed(lines, PropertyName(p)) != []
    ensures FirstOf(lines, p, i) && AllNamed(lines, PropertyName(p))[0] == ParseLine(lines[i]).value
  {
    NamedHead(lines, p);
    if Names(lines[0], p) {
      i := 0;
    } else {
      assert [] + AllNamed(lines[1..], PropertyName(p)) == AllNamed(lines[1..], PropertyName(p));
      var k := NamedAreFirst(lines[1..], p);
      FirstLater(lines, p, k);
      i := k + 1;
    }
  }

  /** The value of a property is that of its first line. */
  lemma FirstValueExactly(lines: seq<Str>, p: Property)
    ensures FirstValue(lines, p).Some? <==> exists i :: FirstOf(lines, p, i)
    ensures forall i | FirstOf(lines, p, i) :: FirstValue(lines, p) == Some(ValueOf(lines[i]))
  {
    if AllNamed(lines, PropertyName(p)) == [] {
      NoneNamed(lines, p);
    } else {
      var i := NamedAreFirst(lines, p);
      forall j | FirstOf(lines, p, j) ensures j == i {
        FirstIsOne(lines, p, i, j);
      }
    }
  }

  lemma FirstIsOne(lines: seq<Str>, p: Property, i: int, j: int)
    requires FirstOf(lines, p, i) && FirstOf(lines, p, j)
    ensures i == j
  {
  }

  lemma {:induction false} PickedAreNamed(lines: seq<Str>, p: Property)
    ensures var all, picked := AllNamed(lines, PropertyName(p)), Picked(lines, p);
      |all| == |picked| && forall i | 0 <= i < |all| :: all[i] == ParseLine(picked[i]).value
  {
    if lines != [] {
      PickedAreNamed(lines[1..], p);
    }
  }

  ghost predicate Present(lines: seq<Str>, p: Property) {
    exists i :: FirstOf(lines, p, i) && ValueOf(lines[i]) != []
  }

  /** What a text property of the item must be: the unescaped value of its first line, nothing without one. */
  ghost predicate TextOf(lines: seq<Str>, p: Property, text: Option<Str>) {
    && (text.Some? <==> exists i :: FirstOf(lines, p, i))
    && forall i | FirstOf(lines, p, i) :: text == Some(TextEscape.ICalUnescape(ValueOf(lines[i])))
  }

  /** The organizer is read from the first line of that property. */
  ghost predicate OrganizerOf(lines: seq<Str>, organizer: Option<PersonRead>) {
    && (organizer.Some? <==> exists i :: FirstOf(lines, ORGANIZER, i))
    && forall i | FirstOf(lines, ORGANIZER, i) :: organizer == Some(ReadPerson(ParseLine(lines[i]).value))
  }

  lemma OrganizerExactly(lines: seq<Str>)
    ensures var all := AllNamed(lines, PropertyName(ORGANIZER));
      OrganizerOf(lines, if all == [] then None else Some(ReadPerson(all[0])))
  {
    if AllNamed(lines, PropertyName(ORGANIZER)) == [] {
      NoneNamed(lines, ORGANIZER);
    } else {
      var i := NamedAreFirst(lines, ORGANIZER);
      forall j | FirstOf(lines, ORGANIZER, j) ensures j == i {
        FirstIsOne(lines, ORGANIZER, i, j);
      }
    }
  }

  ghost predicate UrlOf(lines: seq<Str>, url: Option<Str>) {
    && (url.Some? <==> exists i :: FirstOf(lines, URL, i))
    && forall i | FirstOf(lines, URL, i) :: url == Some(ValueOf(lines[i]))
  }

  predicate AttendeesOf(lines: seq<Str>, attendees: seq<PersonRead>) {
    && |attendees| == |Picked(lines, ATTENDEE)|
    && forall i | 0 <= i < |attendees| :: attendees[i] == ReadPerson(ParseLine(Picked(lines, ATTENDEE)[i]).value)
  }

  ghost predicate ItemOf(task: bool, lines: seq<Str>, item: CalendarRead) {
    && item.task == task
    && TextOf(lines, UID, Some(item.uid)) && TextOf(lines, SUMMARY, Some(item.name))
    && TextOf(lines, DESCRIPTION, item.content) && TextOf(lines, LOCATION, item.location)
    && UrlOf(lines, item.url) && OrganizerOf(lines, item.organizer) && AttendeesOf(lines, item.attendees)
  }

  /**
   The component's lines, in any order and number, decide the item: it exists
   exactly with a non-empty uid and title; the first line of each property
   counts; every attendee line counts, in order.
   */
  lemma ReadExactly(task: bool, lines: seq<Str>)
    ensures ReadLines(task, lines).Ok? <==> Present(lines, UID) && Present(lines, SUMMARY)
    ensures ReadLines(task, lines).Ok? ==> ItemOf(task, lines, ReadLines(task, lines).value)
  {
    PresentExactly(lines, UID);
    PresentExactly(lines, SUMMARY);
    if ReadLines(task, lines).Ok? {
      FieldsExactly(task, lines, ReadLines(task, lines).value);
    }
  }

  lemma PresentExactly(lines: seq<Str>, p: Property)
    ensures Present(lines, p) <==> FirstValue(lines, p).Some? && FirstValue(lines, p).value != []
  {
    FirstValueExactly(lines, p);
  }

  lemma FieldsExactly(task: bool, lines: seq<Str>, item: CalendarRead)
    requires ReadLines(task, lines) == Ok(item)
    ensures ItemOf(task, lines, item)
  {
    TextExactly(lines, UID);
    TextExactly(lines, SUMMARY);
    TextExactly(lines, DESCRIPTION);
    TextExactly(lines, LOCATION);
    UrlExactly(lines);
    OrganizerExactly(lines);
    AttendeesExactly(lines);
  }

  lemma UrlExactly(lines: seq<Str>)
    ensures UrlOf(lines, FirstValue(lines, URL))
  {
    FirstValueExactly(lines, URL);
  }

  lemma AttendeesExactly(lines: seq<Str>)
    ensures AttendeesOf(lines, ReadPeople(AllNamed(lines, PropertyName(ATTENDEE))))
  {
    PickedAreNamed(lines, ATTENDEE);
  }

  lemma TextExactly(lines: seq<Str>, p: Property)
    ensures TextOf(lines, p, FirstText(lines, p))
  {
    FirstValueExactly(lines, p);
  }

  // ---------- what a line says ----------

  /** A line without a colon outside quotes, or with its first one at the start, says nothing. */
  lemma LineRefused(line: Str)
    ensures ParseLine(line).None? <==> FreeAt(line, COLON, false, 0) || forall i :: !FreeAt(line, COLON, false, i)
  {
    IndexExactly(line, COLON, false);
  }

  /** Any other line: a name in any case, parameters, and the value after the first free colon. */
  lemma LineExactly(name: Str, params: seq<Str>, value: Str)
    requires AllClosed([name] + params) && (name != [] || params != [])
    ensures ParseLine(Print(name, params, value)) == Some(Line(Upper(name), Parameters(map[], params), value))
  {
    var parts := [name] + params;
    var head := Join(parts, [SEMICOLON]);
    PrintedSplits(parts, value);
    assert parts[0] == name && parts[1..] == params;
    if params == [] {
      assert head == name;
    } else {
      assert head == name + [SEMICOLON] + Join(params, [SEMICOLON]);
    }
  }

  /** The parameter sets this key: what comes before its first equals sign, in any case. */
  predicate Sets(param: Str, key: Str, equals: nat) {
    && 0 < equals < |param| && param[equals] == EQUALS && EQUALS !in param[..equals] && Upper(param[..equals]) == key
  }

  lemma FirstEquals(param: Str, key: Str, equals: nat)
    requires Sets(param, key, equals)
    ensures IndexOf(param, EQUALS) == Some(equals)
  {
    IndexOfSkips(param[..equals], EQUALS, param[equals + 1..]);
    assert param[..equals] + [EQUALS] + param[equals + 1..] == param;
  }

  lemma {:induction false} IndexIsFirst(s: Str, u: Unit)
    ensures IndexOf(s, u).Some? ==> u !in s[..IndexOf(s, u).value]
  {
    if s != [] && s[0] != u {
      IndexIsFirst(s[1..], u);
      if IndexOf(s, u).Some? {
        HeadAndTail(s[..IndexOf(s, u).value]);
        assert s[..IndexOf(s, u).value][1..] == s[1..][..IndexOf(s[1..], u).value];
      }
    }
  }

  /** Whether the parameters set a key, and from where. */
  function LastSet(params: seq<Str>, key: Str): Option<Str> {
    if params == [] then None
    else
      var last := params[|params| - 1];
      var k := IndexOf(last, EQUALS);
      if k.Some? && Sets(last, key, k.value) then Some(last[k.value + 1..]) else LastSet(params[..|params| - 1], key)
  }

  lemma {:induction false} ParametersSnoc(m: map<Str, Str>, params: seq<Str>, last: Str)
    ensures Parameters(m, params + [last]) == AddParameter(Parameters(m, params), last)
    decreases |params|
  {
    if params == [] {
      assert [] + [last] == [last] && [last][1..] == [];
    } else {
      ParametersSnoc(AddParameter(m, params[0]), params[1..], last);
      TailOfConcat(params, [last]);
    }
  }

  /** The last parameter that sets a key decides it, decoded. */
  lemma {:induction false} ParameterExactly(params: seq<Str>, key: Str)
    ensures var m := Parameters(map[], params);
      (key in m <==> LastSet(params, key).Some?)
      && (key in m ==> m[key] == DecodeParameter(LastSet(params, key).value))
    decreases |params|
  {
    if params != [] {
      var front, last := params[..|params| - 1], params[|params| - 1];
      ParameterExactly(front, key);
      ParametersSnoc(map[], front, last);
      assert front + [last] == params;
      IndexIsFirst(last, EQUALS);
    }
  }

  /** The address of a person, whatever the case of the scheme before it. */
  lemma MailtoDropped(scheme: Str, address: Str)
    requires Lower(scheme) == L("mailto:")
    ensures StripMailto(scheme + address) == address
  {
    assert |scheme| == 7 && (scheme + address)[..7] == scheme && (scheme + address)[7..] == address;
  }

  // ---------- what printing accepts ----------

  /** No path separator, escape or line break: the uid becomes part of a url. */
  predicate UidFits(uid: Str) {
    forall u | u in uid :: u != '/' as int && u != '%' as int && u != '\\' as int && u != CR && u != LF
  }

  predicate InputFits(input: CalendarInput) {
    && UidFits(input.uid)
    && (input.url.Some? ==> OneLine(input.url.value))
    && (input.organizer.Some? ==> OneLine(input.organizer.value.email))
    && (forall person | person in input.attendees :: OneLine(person.email))
  }

  lemma UidExactly(uid: Str)
    ensures UidFits(uid) <==> !exists i :: 0 <= i < |uid| && uid[i] in {CR, LF, PERCENT, SLASH, BACKSLASH}
  {
    if UidFits(uid) {
      forall i | 0 <= i < |uid| ensures uid[i] !in {CR, LF, PERCENT, SLASH, BACKSLASH} {
        assert uid[i] in uid;
      }
    } else {
      var u :| u in uid && (u == '/' as int || u == '%' as int || u == '\\' as int || u == CR || u == LF);
      var i :| 0 <= i < |uid| && uid[i] == u;
    }
  }

  lemma PeopleExactly(people: seq<Person>)
    ensures EmailsFit(people) <==> forall person | person in people :: OneLine(person.email)
  {
    forall i | 0 <= i < |people| ensures people[i] in people {
    }
  }

  /** Printing refuses an object exactly for a path, escape or break in its uid, or a break in its url or an address. */
  lemma AcceptedExactly(input: CalendarInput)
    ensures Printing(input).Ok? <==> InputFits(input)
  {
    UidExactly(input.uid);
    PeopleExactly(input.attendees);
  }
}
