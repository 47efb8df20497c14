/**
 Line ends do not matter to the calendar parser: bodies that differ in CRLF and
 LF alone are unfolded, tested, cut and split alike.
 */
module ICalLineEnds {
  import opened JsString
  import opened Results
  import opened ICalText
  import opened ICalObject
  import opened FoldedBody
  import LineFolding

  // ---------- unfolding ----------

  lemma UnfoldCrlf(rest: Str)
    ensures LineFolding.ICalUnfold(CRLF + rest) ==
      if LineFolding.StartsBlank(rest) then LineFolding.ICalUnfold(rest[1..]) else CRLF + LineFolding.ICalUnfold(rest)
  {
    var s := CRLF + rest;
    if LineFolding.StartsBlank(rest) {
      assert s[3..] == rest[1..] && s[2] == rest[0];
    } else {
      LineFolding.UnfoldBreak(rest);
    }
  }

  lemma UnfoldLf(rest: Str)
    ensures LineFolding.ICalUnfold([LF] + rest) ==
      if LineFolding.StartsBlank(rest) then LineFolding.ICalUnfold(rest[1..]) else [LF] + LineFolding.ICalUnfold(rest)
  {
    var s := [LF] + rest;
    assert s[1..] == rest;
    if rest != [] {
      assert s[1] == rest[0] && s[2..] == rest[1..];
    }
  }

  lemma LfStartsBlank(s: Str)
    requires Paired(s)
    ensures LineFolding.StartsBlank(Lf(s)) <==> LineFolding.StartsBlank(s)
  {
    if s != [] {
      PairedHead(s);
    }
  }

  lemma {:induction false} LfUnfold(s: Str)
    requires Paired(s)
    ensures LineFolding.ICalUnfold(Lf(s)) == Lf(LineFolding.ICalUnfold(s)) && Paired(LineFolding.ICalUnfold(s))
    decreases |s|
  {
    if s != [] {
      PairedHead(s);
      PairedUnit(LF);
      if StartsWithCrlf(s) || s[0] == LF {
        LfUnfoldBreak(s);
      } else {
        var rest := s[1..];
        LfUnfold(rest);
        LineFolding.UnfoldUnit(s);
        LineFolding.UnfoldUnit(Lf(s));
        PairedUnit(s[0]);
        PairedConcat([s[0]], LineFolding.ICalUnfold(rest));
        LfConcat([s[0]], LineFolding.ICalUnfold(rest));
        assert Lf([s[0]]) == [s[0]];
      }
    }
  }

  lemma {:induction false} LfUnfoldBreak(s: Str)
    requires Paired(s) && s != [] && (StartsWithCrlf(s) || s[0] == LF)
    ensures LineFolding.ICalUnfold(Lf(s)) == Lf(LineFolding.ICalUnfold(s)) && Paired(LineFolding.ICalUnfold(s))
    decreases |s|, 0
  {
    var crlf := StartsWithCrlf(s);
    var end: Str := if crlf then CRLF else [LF];
    var rest := s[|end|..];
    PairedHead(s);
    PairedTail(s, |end|);
    assert s == end + rest;
    UnfoldCrlf(rest);
    UnfoldLf(rest);
    UnfoldLf(Lf(rest));
    LfStartsBlank(rest);
    if LineFolding.StartsBlank(rest) {
      PairedHead(rest);
      LfUnfold(rest[1..]);
    } else {
      LfUnfold(rest);
      PairedConcat(end, LineFolding.ICalUnfold(rest));
      LfConcat(end, LineFolding.ICalUnfold(rest));
      LfEnd(crlf);
    }
  }

  // ---------- the multi-line test ----------

  /** A word on one line is a prefix of both or of neither, and what follows corresponds. */
  lemma {:induction false} LfPrefix(s: Str, word: Str)
    requires Paired(s) && OneLine(word)
    ensures word <= s <==> word <= Lf(s)
    ensures word <= s ==> Paired(s[|word|..]) && Lf(s)[|word|..] == Lf(s[|word|..])
    decreases |word|
  {
    if word != [] && s != [] {
      assert word[0] in word;
      PairedHead(s);
      if s[0] == word[0] {
        LfPrefix(s[1..], word[1..]);
        assert word <= s <==> word[1..] <= s[1..] by { HeadAndTail(word); HeadAndTail(s); }
        assert word <= Lf(s) <==> word[1..] <= Lf(s)[1..] by { HeadAndTail(word); HeadAndTail(Lf(s)); }
        if word <= s {
          assert s[1..][|word| - 1..] == s[|word|..];
          assert Lf(s)[1..][|word| - 1..] == Lf(s)[|word|..];
        }
      }
    } else if word == [] {
      assert s[0..] == s && Lf(s)[0..] == Lf(s);
    }
  }

  lemma LfWordThenEnd(s: Str, word: Str)
    requires Paired(s) && OneLine(word)
    ensures WordThenEnd(s, word, IsTerminator) <==> WordThenEnd(Lf(s), word, IsTerminator)
  {
    LfPrefix(s, word);
    if word <= s {
      var rest := s[|word|..];
      if rest != [] {
        PairedHead(rest);
        assert s[|word|] == rest[0] && Lf(s)[|word|] == Lf(rest)[0];
      }
    }
  }

  lemma {:induction false} LfTest(s: Str, word: Str, atStart: bool)
    requires Paired(s) && OneLine(word) && word != []
    ensures HasLine(s, word, atStart, IsTerminator) <==> HasLine(Lf(s), word, atStart, IsTerminator)
    decreases |s|
  {
    LfWordThenEnd(s, word);
    if s != [] {
      PairedHead(s);
      if StartsWithCrlf(s) {
        LfTest(s[2..], word, true);
        assert s[1..][1..] == s[2..] && s[1] == LF;
        assert word[0] in word;
      } else {
        LfTest(s[1..], word, IsTerminator(s[0]));
      }
    }
  }

  // ---------- sections ----------

  /** Positions that cut a text and its LF form at the same place. */
  predicate SameCut(s: Str, k: nat, m: nat)
  {
    k <= |s| && m <= |Lf(s)| && Paired(s[..k]) && Paired(s[k..]) && Lf(s)[..m] == Lf(s[..k]) && Lf(s)[m..] == Lf(s[k..])
  }

  lemma CutShifts(s: Str, n: nat, k: nat, m: nat)
    requires Paired(s) && s != [] && n == (if StartsWithCrlf(s) then 2 else 1) && SameCut(s[n..], k, m)
    ensures SameCut(s, k + n, m + 1)
  {
    var head, rest := s[..n], s[n..];
    PairedHead(s);
    HeadCut(s, n);
    PairedConcat(head, rest[..k]);
    LfConcat(head, rest[..k]);
    TakeShifted(s, n, k);
    TakeShifted(Lf(s), 1, m);
    assert Lf(s)[..1] == [Lf(s)[0]];
  }

  lemma TakeShifted(s: Str, n: nat, k: nat)
    requires n + k <= |s|
    ensures s[..k + n] == s[..n] + s[n..][..k] && s[k + n..] == s[n..][k..]
  {
  }

  lemma HeadCut(s: Str, n: nat)
    requires Paired(s) && s != [] && n == (if StartsWithCrlf(s) then 2 else 1)
    ensures Paired(s[..n]) && Lf(s[..n]) == [Lf(s)[0]]
  {
    PairedHead(s);
    if n == 2 {
      assert s[..2] == CRLF;
      LfEnd(true);
    } else {
      assert s[..1] == [s[0]] && [s[0]][1..] == [];
    }
  }

  lemma CutAtStart(s: Str)
    requires Paired(s)
    ensures SameCut(s, 0, 0)
  {
    assert s[..0] == [] && s[0..] == s && Lf(s)[..0] == [] && Lf(s)[0..] == Lf(s);
  }

  lemma LfNewline(s: Str)
    requires Paired(s)
    ensures NewlineLength(s) > 0 <==> NewlineLength(Lf(s)) > 0
    ensures NewlineLength(s) > 0 ==>
      NewlineLength(Lf(s)) == 1 && Paired(s[NewlineLength(s)..]) && Lf(s)[1..] == Lf(s[NewlineLength(s)..])
  {
    if s != [] {
      PairedHead(s);
      LfNoCr(s);
    }
  }

  lemma LfClosesHere(s: Str, close: Str)
    requires Paired(s) && OneLine(close)
    ensures ClosesHere(s, close) <==> ClosesHere(Lf(s), close)
  {
    LfNewline(s);
    if NewlineLength(s) > 0 {
      LfPrefix(s[NewlineLength(s)..], close);
    }
  }

  lemma CloseStepEnd(s: Str, close: Str)
    requires s != [] && !ClosesHere(s, close)
    ensures var n := if StartsWithCrlf(s) then 2 else 1; CloseIndex(s, close) == Shift(n, CloseIndex(s[n..], close))
  {
    if StartsWithCrlf(s) {
      CrlfApart(s);
      CloseAtBreak(s[2..], close);
      assert NewlineLength(s) == 2;
    } else {
      CloseStep(s, close);
    }
  }

  lemma {:induction false} LfCloseIndex(s: Str, close: Str)
    requires Paired(s) && OneLine(close)
    ensures CloseIndex(s, close).Some? <==> CloseIndex(Lf(s), close).Some?
    ensures CloseIndex(s, close).Some? ==> SameCut(s, CloseIndex(s, close).value, CloseIndex(Lf(s), close).value)
    decreases |s|
  {
    LfClosesHere(s, close);
    if ClosesHere(s, close) {
      CutAtStart(s);
    } else if s != [] {
      var n := if StartsWithCrlf(s) then 2 else 1;
      PairedHead(s);
      LfCloseIndex(s[n..], close);
      CloseStepEnd(s, close);
      CloseStep(Lf(s), close);
      if CloseIndex(s[n..], close).Some? {
        CutShifts(s, n, CloseIndex(s[n..], close).value, CloseIndex(Lf(s)[1..], close).value);
      }
    }
  }

  lemma LfOpenLength(s: Str, open: Str)
    requires Paired(s) && OneLine(open)
    ensures OpenLength(s, open).Some? <==> OpenLength(Lf(s), open).Some?
    ensures OpenLength(s, open).Some? ==>
      && Paired(s[OpenLength(s, open).value..])
      && Lf(s)[OpenLength(Lf(s), open).value..] == Lf(s[OpenLength(s, open).value..])
  {
    LfPrefix(s, open);
    if open <= s {
      var rest := s[|open|..];
      LfNewline(rest);
      if NewlineLength(rest) > 0 {
        assert s[OpenLength(s, open).value..] == rest[NewlineLength(rest)..];
        assert Lf(s)[|open| + 1..] == Lf(rest)[1..];
        LfNoCr(rest);
      }
    }
  }

  function LfOption(s: Option<Str>): Option<Str> {
    if s.Some? then Some(Lf(s.value)) else None
  }

  /** A match begins here in both or in neither, with the same content. */
  lemma LfMatch(s: Str, open: Str, close: Str)
    requires Paired(s) && OneLine(open) && OneLine(close)
    ensures MatchesHere(s, open, close) <==> MatchesHere(Lf(s), open, close)
    ensures MatchesHere(s, open, close) ==>
      && Opened(Lf(s), open) == Lf(Opened(s, open)) && Paired(Opened(s, open))
      && SameCut(Opened(s, open), CloseIndex(Opened(s, open), close).value,
        CloseIndex(Lf(Opened(s, open)), close).value)
  {
    LfOpenLength(s, open);
    if OpenLength(s, open).Some? {
      LfCloseIndex(Opened(s, open), close);
    }
  }

  lemma LfOpensNowhere(rest: Str, open: Str, close: Str)
    requires OneLine(open) && open != []
    ensures !MatchesHere(CRLF + rest, open, close) && !MatchesHere([LF] + rest, open, close)
  {
    assert open[0] in open;
  }

  lemma SectionSkips(s: Str, open: Str, close: Str)
    requires s != [] && !MatchesHere(s, open, close)
    ensures Section(s, open, close) == Section(s[1..], open, close)
    ensures RemoveSections(s, open, close) == [s[0]] + RemoveSections(s[1..], open, close)
  {
  }

  lemma SectionSkipsEnd(rest: Str, open: Str, close: Str)
    requires OneLine(open) && open != []
    ensures Section(CRLF + rest, open, close) == Section(rest, open, close) == Section([LF] + rest, open, close)
  {
    var s, t := CRLF + rest, [LF] + rest;
    LfOpensNowhere(rest, open, close);
    EndTails(rest);
    SectionSkips(s, open, close);
    SectionSkips(t, open, close);
  }

  lemma EndTails(rest: Str)
    ensures (CRLF + rest)[0] == CR && (CRLF + rest)[1..] == [LF] + rest && ([LF] + rest)[0] == LF
      && ([LF] + rest)[1..] == rest
  {
  }

  lemma RemoveSkipsEnd(rest: Str, open: Str, close: Str)
    requires OneLine(open) && open != []
    ensures RemoveSections(CRLF + rest, open, close) == CRLF + RemoveSections(rest, open, close)
    ensures RemoveSections([LF] + rest, open, close) == [LF] + RemoveSections(rest, open, close)
  {
    var s, t := CRLF + rest, [LF] + rest;
    var removed := RemoveSections(rest, open, close);
    LfOpensNowhere(rest, open, close);
    EndTails(rest);
    SectionSkips(s, open, close);
    SectionSkips(t, open, close);
    ConcatAssociates([CR], [LF], removed);
    assert [CR] + [LF] == CRLF;
  }

  lemma CrlfApart(s: Str)
    requires StartsWithCrlf(s)
    ensures s == CRLF + s[2..]
  {
  }

  lemma {:induction false} LfSection(s: Str, open: Str, close: Str)
    requires Paired(s) && OneLine(open) && open != [] && OneLine(close)
    ensures Section(Lf(s), open, close) == LfOption(Section(s, open, close))
    ensures Section(s, open, close).Some? ==> Paired(Section(s, open, close).value)
    decreases |s|
  {
    if s != [] {
      PairedHead(s);
      LfMatch(s, open, close);
      if StartsWithCrlf(s) {
        CrlfApart(s);
        SectionSkipsEnd(s[2..], open, close);
        SectionSkipsEnd(Lf(s[2..]), open, close);
        LfSection(s[2..], open, close);
      } else if !MatchesHere(s, open, close) {
        LfSection(s[1..], open, close);
      }
    }
  }

  lemma LfClosed(inner: Str, close: Str)
    requires Paired(inner) && OneLine(close) && CloseIndex(inner, close).Some?
    ensures CloseIndex(Lf(inner), close).Some?
    ensures Closed(Lf(inner), close) == Lf(Closed(inner, close)) && Paired(Closed(inner, close))
  {
    LfCloseIndex(inner, close);
    CloseIndexCloses(inner, close);
    var tail := inner[CloseIndex(inner, close).value..];
    var other := Lf(inner)[CloseIndex(Lf(inner), close).value..];
    assert other == Lf(tail);
    LfRest(tail, close);
  }

  lemma LfRest(tail: Str, close: Str)
    requires Paired(tail) && OneLine(close) && ClosesHere(tail, close)
    ensures ClosesHere(Lf(tail), close) && Paired(tail[NewlineLength(tail) + |close|..])
    ensures Lf(tail)[NewlineLength(Lf(tail)) + |close|..] == Lf(tail[NewlineLength(tail) + |close|..])
  {
    LfClosesHere(tail, close);
    LfNewline(tail);
    var after := tail[NewlineLength(tail)..];
    LfPrefix(after, close);
    assert after[|close|..] == tail[NewlineLength(tail) + |close|..];
    assert Lf(tail)[1 + |close|..] == Lf(tail)[1..][|close|..];
  }

  lemma {:induction false} LfRemove(s: Str, open: Str, close: Str)
    requires Paired(s) && OneLine(open) && open != [] && OneLine(close)
    ensures RemoveSections(Lf(s), open, close) == Lf(RemoveSections(s, open, close))
    ensures Paired(RemoveSections(s, open, close))
    decreases |s|
  {
    if s != [] {
      PairedHead(s);
      LfMatch(s, open, close);
      if MatchesHere(s, open, close) {
        LfClosed(Opened(s, open), close);
        LfRemove(Closed(Opened(s, open), close), open, close);
      } else if StartsWithCrlf(s) {
        CrlfApart(s);
        LfRemove(s[2..], open, close);
        RemoveSkipsEnd(s[2..], open, close);
        RemoveSkipsEnd(Lf(s[2..]), open, close);
        LfAfter(CRLF, RemoveSections(s[2..], open, close));
      } else {
        LfRemove(s[1..], open, close);
        SectionSkips(s, open, close);
        SectionSkips(Lf(s), open, close);
        LfAfter([s[0]], RemoveSections(s[1..], open, close));
      }
    }
  }

  // ---------- lines ----------

  lemma {:induction false} LfSplit(s: Str)
    requires Paired(s)
    ensures SplitLines(Lf(s)) == SplitLines(s)
    decreases |s|
  {
    if s != [] {
      PairedHead(s);
      LfSplit(s[if StartsWithCrlf(s) then 2 else 1..]);
      LfNoCr(s);
    }
  }

  // ---------- reading ----------

  lemma MarkersOneLine(task: bool)
    ensures OneLine(Begin(task)) && Begin(task) != [] && OneLine(End(task))
    ensures OneLine(BEGIN_ALARM) && BEGIN_ALARM != [] && OneLine(END_ALARM)
  {
  }

  /** What the parser makes of an unfolded body. */
  function ReadUnfolded(unfolded: Str): Result<CalendarRead> {
    var task := TestLine(unfolded, Begin(true));
    var section := Section(unfolded, Begin(task), End(task));
    if section.None? || section.value == [] then Err("invalid calendar data")
    else ReadLines(task, SplitLines(RemoveSections(section.value, BEGIN_ALARM, END_ALARM)))
  }

  lemma LfReading(unfolded: Str)
    requires Paired(unfolded)
    ensures ReadUnfolded(Lf(unfolded)) == ReadUnfolded(unfolded)
  {
    MarkersOneLine(true);
    LfTest(unfolded, Begin(true), true);
    var task := TestLine(unfolded, Begin(true));
    MarkersOneLine(task);
    LfSection(unfolded, Begin(task), End(task));
    var section := Section(unfolded, Begin(task), End(task));
    if section.Some? {
      LfRemove(section.value, BEGIN_ALARM, END_ALARM);
      LfSplit(RemoveSections(section.value, BEGIN_ALARM, END_ALARM));
    }
  }

  /**
   Two bodies without lone carriage returns that unfold to the same text but for
   CRLF and LF are read alike.
   */
  lemma ReadAlike(a: Str, b: Str)
    requires Paired(a) && Paired(b)
    requires Lf(LineFolding.ICalUnfold(a)) == Lf(LineFolding.ICalUnfold(b))
    ensures Reading(a) == Reading(b)
  {
    LfUnfold(a);
    LfUnfold(b);
    LfReading(LineFolding.ICalUnfold(a));
    LfReading(LineFolding.ICalUnfold(b));
  }
}
