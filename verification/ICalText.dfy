/**
 The regular expressions the calendar parser applies to an unfolded body: the
 line test, the component section, alarm removal and the split into lines,
 each as a function on text, and what each does on text made of CRLF lines.
 */
module ICalText {
  import opened JsString
  import opened Results

  predicate EndsWith(s: Str, suffix: Str) {
    |suffix| <= |s| && s[|s| - |suffix|..] == suffix
  }

  /** Lines joined by CRLF, each ended by CRLF: what an unfolded body looks like. */
  function Ended(lines: seq<Str>): Str {
    if lines == [] then [] else lines[0] + (CRLF + Ended(lines[1..]))
  }

  lemma {:induction false} EndedIsJoin(lines: seq<Str>)
    requires lines != []
    ensures Ended(lines) == Join(lines, CRLF) + CRLF
  {
    if |lines| == 1 {
      assert Ended(lines[1..]) == [];
      assert CRLF + [] == CRLF;
    } else {
      EndedIsJoin(lines[1..]);
    }
  }

  lemma {:induction false} EndedConcat(a: seq<Str>, b: seq<Str>)
    ensures Ended(a + b) == Ended(a) + Ended(b)
  {
    if a == [] {
      assert a + b == b;
    } else {
      EndedConcat(a[1..], b);
      assert (a + b)[1..] == a[1..] + b;
      ConcatAssociates(CRLF, Ended(a[1..]), Ended(b));
      ConcatAssociates(a[0], CRLF + Ended(a[1..]), Ended(b));
    }
  }

  // A one-line text is a prefix of a line and what follows iff it is a prefix of the line.
  lemma PrefixOfLine(p: Str, a: Str, rest: Str)
    requires OneLine(p)
    ensures p <= a + (CRLF + rest) <==> p <= a
  {
    var s := a + (CRLF + rest);
    assert s[|a|] == CR && CR !in p;
    if |p| > |a| {
      assert p[|a|] in p;
    }
  }

  lemma LfStartsNoWord(word: Str, rest: Str)
    requires OneLine(word) && word != []
    ensures !(word <= [LF] + rest)
  {
    assert word[0] in word;
  }

  // ---------- the multi-line test ----------

  /** Where `^` and `$` match with the m flag. */
  predicate IsTerminator(u: Unit) {
    u == LF || u == CR || IsSeparator(u)
  }

  predicate IsSeparator(u: Unit) {
    u == LINE_SEPARATOR || u == PARAGRAPH_SEPARATOR
  }

  predicate WordThenEnd(s: Str, word: Str, ends: Unit -> bool) {
    word <= s && (|s| == |word| || ends(s[|word|]))
  }

  /** A line consisting of `word` alone; `ends` says what separates lines. */
  predicate HasLine(s: Str, word: Str, atStart: bool, ends: Unit -> bool) {
    (atStart && WordThenEnd(s, word, ends))
    || (s != [] && HasLine(s[1..], word, ends(s[0]), ends))
  }

  /** `/^word\r?$/m.test(s)`. */
  predicate TestLine(s: Str, word: Str) {
    HasLine(s, word, true, IsTerminator)
  }

  lemma {:induction false} TestFirstLine(a: Str, rest: Str, word: Str, atStart: bool)
    requires OneLine(a) && OneLine(word) && word != []
    ensures HasLine(a + (CRLF + rest), word, atStart, IsTerminator)
       <==> HasLine(a, word, atStart, IsTerminator) || TestLine(rest, word)
    decreases |a|
  {
    var s := a + (CRLF + rest);
    PrefixOfLine(word, a, rest);
    if a == [] {
      assert s == CRLF + rest;
      var t := [LF] + rest;
      assert s[1..] == t && t[1..] == rest;
      LfStartsNoWord(word, rest);
      assert !WordThenEnd(t, word, IsTerminator);
      assert !WordThenEnd(s, word, IsTerminator);
    } else {
      assert a[0] in a;
      TestFirstLine(a[1..], rest, word, IsTerminator(a[0]));
      assert s[1..] == a[1..] + (CRLF + rest);
      assert WordThenEnd(s, word, IsTerminator) <==> WordThenEnd(a, word, IsTerminator);
    }
  }

  predicate SomeTests(lines: seq<Str>, word: Str) {
    exists i :: 0 <= i < |lines| && TestLine(lines[i], word)
  }

  /** The test succeeds on a body iff it succeeds on one of its lines. */
  lemma {:induction false} TestLines(lines: seq<Str>, word: Str)
    requires AllOneLine(lines) && OneLine(word) && word != []
    ensures TestLine(Ended(lines), word) <==> SomeTests(lines, word)
  {
    if lines != [] {
      TestFirstLine(lines[0], Ended(lines[1..]), word, true);
      TestLines(lines[1..], word);
      if SomeTests(lines, word) {
        var i :| 0 <= i < |lines| && TestLine(lines[i], word);
        assert i > 0 ==> TestLine(lines[1..][i - 1], word);
      }
      if SomeTests(lines[1..], word) {
        var i :| 0 <= i < |lines[1..]| && TestLine(lines[1..][i], word);
        assert TestLine(lines[i + 1], word);
      }
    }
  }

  // ---------- sections ----------

  /** Length of `open\r?\n` at the start of `s`. */
  function OpenLength(s: Str, open: Str): (r: Option<nat>)
    ensures r.Some? ==> |open| < r.value <= |s|
  {
    if !(open <= s) then None
    else
      var rest := s[|open|..];
      if StartsWithCrlf(rest) then Some(|open| + 2)
      else if rest != [] && rest[0] == LF then Some(|open| + 1)
      else None
  }

  function NewlineLength(s: Str): (n: nat)
    ensures n <= |s|
  {
    if StartsWithCrlf(s) then 2 else if s != [] && s[0] == LF then 1 else 0
  }

  /** `\r?\nclose` matches at the start of `s`. */
  predicate ClosesHere(s: Str, close: Str) {
    NewlineLength(s) > 0 && close <= s[NewlineLength(s)..]
  }

  /** Where the lazy group ends: the first position at which `\r?\nclose` matches. */
  function CloseIndex(s: Str, close: Str): (r: Option<nat>)
    ensures r.Some? ==> r.value <= |s|
  {
    if ClosesHere(s, close) then Some(0)
    else if s == [] then None
    else match CloseIndex(s[1..], close)
         case None => None
         case Some(k) => Some(k + 1)
  }

  lemma {:induction false} CloseIndexCloses(s: Str, close: Str)
    requires CloseIndex(s, close).Some?
    ensures ClosesHere(s[CloseIndex(s, close).value..], close)
  {
    if !ClosesHere(s, close) {
      CloseIndexCloses(s[1..], close);
      assert s[CloseIndex(s, close).value..] == s[1..][CloseIndex(s[1..], close).value..];
    }
  }

  /** `open\r?\n[\s\S]*?\r?\nclose` matches at the start of `s`. */
  predicate MatchesHere(s: Str, open: Str, close: Str) {
    OpenLength(s, open).Some? && CloseIndex(s[OpenLength(s, open).value..], close).Some?
  }

  /** What follows the opening of a match. */
  function Opened(s: Str, open: Str): (inner: Str)
    requires OpenLength(s, open).Some?
    ensures |inner| < |s|
  {
    s[OpenLength(s, open).value..]
  }

  /** What follows the first closing. */
  function Closed(inner: Str, close: Str): (rest: Str)
    requires CloseIndex(inner, close).Some?
    ensures |rest| <= |inner|
  {
    CloseIndexCloses(inner, close);
    var tail := inner[CloseIndex(inner, close).value..];
    tail[NewlineLength(tail) + |close|..]
  }

  /** The captured group of `open\r?\n([\s\S]*?)\r?\nclose` in its first match. */
  function Section(s: Str, open: Str, close: Str): Option<Str> {
    if s == [] then None
    else if MatchesHere(s, open, close) then
      var inner := Opened(s, open);
      Some(inner[..CloseIndex(inner, close).value])
    else Section(s[1..], open, close)
  }

  /** Every match of `open\r?\n[\s\S]*?\r?\nclose` removed. */
  function RemoveSections(s: Str, open: Str, close: Str): Str
    decreases |s|
  {
    if s == [] then []
    else if MatchesHere(s, open, close) then RemoveSections(Closed(Opened(s, open), close), open, close)
    else [s[0]] + RemoveSections(s[1..], open, close)
  }

  function Shift(k: nat, r: Option<nat>): Option<nat> {
    if r.Some? then Some(k + r.value) else None
  }

  lemma CloseStep(s: Str, close: Str)
    requires s != [] && !ClosesHere(s, close)
    ensures CloseIndex(s, close) == Shift(1, CloseIndex(s[1..], close))
  {
  }

  lemma CloseAtBreak(rest: Str, close: Str)
    ensures CloseIndex(CRLF + rest, close) == if close <= rest then Some(0) else Shift(2, CloseIndex(rest, close))
  {
    var s, t := CRLF + rest, [LF] + rest;
    assert s[2..] == rest && s[1..] == t && t[1..] == rest;
    if !(close <= rest) {
      CloseStep(s, close);
      CloseStep(t, close);
    }
  }

  lemma CloseSkipsUnit(s: Str, close: Str)
    requires s != [] && s[0] != CR && s[0] != LF
    ensures CloseIndex(s, close) == Shift(1, CloseIndex(s[1..], close))
  {
  }

  lemma {:induction false} CloseAfterLine(a: Str, rest: Str, close: Str)
    requires OneLine(a)
    ensures CloseIndex(a + (CRLF + rest), close) ==
      if close <= rest then Some(|a|) else Shift(|a| + 2, CloseIndex(rest, close))
  {
    if a == [] {
      CloseAtBreak(rest, close);
      assert a + (CRLF + rest) == CRLF + rest;
    } else {
      assert a[0] in a;
      CloseAfterLine(a[1..], rest, close);
      TailOfConcat(a, CRLF + rest);
      CloseSkipsUnit(a + (CRLF + rest), close);
    }
  }

  /** No line starts with `close`, so it never closes a section. */
  lemma {:induction false} NeverCloses(lines: seq<Str>, close: Str)
    requires AllOneLine(lines) && OneLine(close) && close != []
    requires forall i | 0 <= i < |lines| :: !(close <= lines[i])
    ensures CloseIndex(Ended(lines), close).None? && !(close <= Ended(lines))
  {
    if lines != [] {
      NeverCloses(lines[1..], close);
      CloseAfterLine(lines[0], Ended(lines[1..]), close);
      PrefixOfLine(close, lines[0], Ended(lines[1..]));
    }
  }

  lemma {:induction false} NoSectionWithoutClose(s: Str, open: Str, close: Str)
    requires CloseIndex(s, close).None?
    ensures Section(s, open, close).None? && RemoveSections(s, open, close) == s
  {
    if s != [] {
      NoSectionWithoutClose(s[1..], open, close);
      var head := OpenLength(s, open);
      if head.Some? {
        NoCloseLater(s, head.value, close);
      }
    }
  }

  lemma {:induction false} NoCloseLater(s: Str, k: nat, close: Str)
    requires k <= |s| && CloseIndex(s, close).None?
    ensures CloseIndex(s[k..], close).None?
    decreases k
  {
    if k > 0 {
      NoCloseLater(s[1..], k - 1, close);
      assert s[1..][k - 1..] == s[k..];
    }
  }

  /** A body in front of other text: its first line, a break, and the rest. */
  lemma EndedStep(lines: seq<Str>, rest: Str)
    requires lines != []
    ensures Ended(lines) + rest == lines[0] + (CRLF + (Ended(lines[1..]) + rest))
  {
    ConcatAssociates(CRLF, Ended(lines[1..]), rest);
    ConcatAssociates(lines[0], CRLF + Ended(lines[1..]), rest);
  }

  lemma ClosesInLonger(s: Str, rest: Str, close: Str)
    ensures ClosesHere(s, close) ==> ClosesHere(s + rest, close)
  {
    var n := NewlineLength(s);
    assert (s + rest)[n..] == s[n..] + rest;
  }

  // Cutting a text off can only remove closes.
  lemma {:induction false} NoCloseBefore(s: Str, rest: Str, close: Str)
    requires CloseIndex(s + rest, close).None?
    ensures CloseIndex(s, close).None?
  {
    ClosesInLonger(s, rest, close);
    if s != [] {
      assert (s + rest)[1..] == s[1..] + rest;
      NoCloseBefore(s[1..], rest, close);
    }
  }

  /** The first close of a section made of lines that do not start with it. */
  lemma {:induction false} CloseAfterLines(lines: seq<Str>, rest: Str, close: Str)
    requires lines != [] && AllOneLine(lines) && OneLine(close)
    requires forall i | 0 <= i < |lines| :: !(close <= lines[i])
    requires close <= rest
    ensures CloseIndex(Ended(lines) + rest, close) == Some(|Join(lines, CRLF)|)
  {
    EndedStep(lines, rest);
    CloseAfterLine(lines[0], Ended(lines[1..]) + rest, close);
    if |lines| == 1 {
      assert Ended(lines[1..]) + rest == rest;
    } else {
      CloseAfterLines(lines[1..], rest, close);
      EndedStep(lines[1..], rest);
      PrefixOfLine(close, lines[1], Ended(lines[1..][1..]) + rest);
    }
  }

  lemma NotOpenedInLine(a: Str, rest: Str, open: Str)
    requires OneLine(a) && OneLine(open) && !EndsWith(a, open)
    ensures OpenLength(a + (CRLF + rest), open).None?
  {
    var s := a + (CRLF + rest);
    PrefixOfLine(open, a, rest);
    assert |a| == |open| ==> a[|a| - |open|..] == a;
    if |open| < |a| {
      assert a[|open|] in a;
      assert s[|open|] == a[|open|];
    }
  }

  lemma EndsWithTail(a: Str, suffix: Str)
    requires a != []
    ensures EndsWith(a[1..], suffix) ==> EndsWith(a, suffix)
  {
    assert |suffix| < |a| ==> a[1..][|a| - 1 - |suffix|..] == a[|a| - |suffix|..];
  }

  lemma SectionSkipsBreak(rest: Str, open: Str, close: Str)
    requires OneLine(open) && open != []
    ensures Section(CRLF + rest, open, close) == Section(rest, open, close)
  {
    var s, t := CRLF + rest, [LF] + rest;
    assert s[1..] == t && t[1..] == rest;
    assert open[0] in open;
    LfStartsNoWord(open, rest);
  }

  lemma {:induction false} SectionSkipsLine(a: Str, rest: Str, open: Str, close: Str)
    requires OneLine(a) && OneLine(open) && open != [] && !EndsWith(a, open)
    ensures Section(a + (CRLF + rest), open, close) == Section(rest, open, close)
    decreases |a|
  {
    var s := a + (CRLF + rest);
    if a == [] {
      assert s == CRLF + rest;
      SectionSkipsBreak(rest, open, close);
    } else {
      NotOpenedInLine(a, rest, open);
      EndsWithTail(a, open);
      SectionSkipsLine(a[1..], rest, open, close);
      assert s[1..] == a[1..] + (CRLF + rest);
    }
  }

  lemma {:induction false} SectionSkipsLines(lines: seq<Str>, rest: Str, open: Str, close: Str)
    requires AllOneLine(lines) && OneLine(open) && open != []
    requires forall i | 0 <= i < |lines| :: !EndsWith(lines[i], open)
    ensures Section(Ended(lines) + rest, open, close) == Section(rest, open, close)
  {
    if lines == [] {
      assert Ended(lines) + rest == rest;
    } else {
      EndedStep(lines, rest);
      SectionSkipsLine(lines[0], Ended(lines[1..]) + rest, open, close);
      SectionSkipsLines(lines[1..], rest, open, close);
    }
  }

  lemma SectionAtOpen(open: Str, inner: Str, close: Str)
    requires CloseIndex(inner, close).Some?
    ensures Section(open + (CRLF + inner), open, close) == Some(inner[..CloseIndex(inner, close).value])
  {
    var s := open + (CRLF + inner);
    assert s[|open|..] == CRLF + inner && s[|open| + 2..] == inner;
  }

  /** The section of a component printed as lines is those lines. */
  lemma SectionOfLines(before: seq<Str>, open: Str, lines: seq<Str>, close: Str, after: seq<Str>)
    requires AllOneLine(before) && AllOneLine(lines) && lines != []
    requires OneLine(open) && open != [] && OneLine(close)
    requires forall i | 0 <= i < |before| :: !EndsWith(before[i], open)
    requires forall i | 0 <= i < |lines| :: !(close <= lines[i])
    ensures Section(Ended(before + ([open] + (lines + ([close] + after)))), open, close) == Some(Join(lines, CRLF))
  {
    var closing := Ended([close] + after);
    ClosingStart(close, after);
    var inner := Ended(lines) + closing;
    EndedParts(before, open, lines, [close] + after);
    SectionSkipsLines(before, open + (CRLF + inner), open, close);
    SectionFromOpen(open, lines, closing, close);
  }

  /** The section that starts right here. */
  lemma SectionFromOpen(open: Str, lines: seq<Str>, closing: Str, close: Str)
    requires AllOneLine(lines) && lines != [] && OneLine(open) && open != [] && OneLine(close) && close <= closing
    requires forall i | 0 <= i < |lines| :: !(close <= lines[i])
    ensures Section(open + (CRLF + (Ended(lines) + closing)), open, close) == Some(Join(lines, CRLF))
  {
    var inner := Ended(lines) + closing;
    CloseAfterLines(lines, closing, close);
    SectionAtOpen(open, inner, close);
    EndedIsJoin(lines);
    assert inner[..|Join(lines, CRLF)|] == Join(lines, CRLF);
  }

  lemma EndedParts(before: seq<Str>, open: Str, lines: seq<Str>, after: seq<Str>)
    ensures Ended(before + ([open] + (lines + after)))
      == Ended(before) + (open + (CRLF + (Ended(lines) + Ended(after))))
  {
    var inner := Ended(lines) + Ended(after);
    EndedConcat(lines, after);
    EndedConcat([open], lines + after);
    EndedStep([open], inner);
    assert [open][1..] == [] && Ended([]) + inner == inner;
    EndedConcat(before, [open] + (lines + after));
  }

  lemma ClosingStart(close: Str, after: seq<Str>)
    ensures close <= Ended([close] + after)
  {
    assert ([close] + after)[1..] == after;
  }

  // ---------- lines again ----------

  /** `split(/\r?\n/)`. */
  function SplitLines(s: Str): (lines: seq<Str>)
    ensures lines != []
  {
    if s == [] then [[]]
    else if StartsWithCrlf(s) then [[]] + SplitLines(s[2..])
    else if s[0] == LF then [[]] + SplitLines(s[1..])
    else
      var rest := SplitLines(s[1..]);
      [[s[0]] + rest[0]] + rest[1..]
  }

  lemma {:induction false} SplitOneLine(a: Str, rest: Str)
    requires OneLine(a)
    ensures SplitLines(a + (CRLF + rest)) == [a] + SplitLines(rest)
    ensures SplitLines(a) == [a]
  {
    var s := a + (CRLF + rest);
    if a == [] {
      assert s == CRLF + rest && s[2..] == rest;
    } else {
      assert a[0] in a;
      SplitOneLine(a[1..], rest);
      assert s[1..] == a[1..] + (CRLF + rest);
      assert [a[0]] + a[1..] == a;
    }
  }

  lemma {:induction false} SplitInvertsJoin(lines: seq<Str>)
    requires lines != [] && AllOneLine(lines)
    ensures SplitLines(Join(lines, CRLF)) == lines
  {
    if |lines| == 1 {
      SplitOneLine(lines[0], []);
    } else {
      SplitInvertsJoin(lines[1..]);
      SplitOneLine(lines[0], Join(lines[1..], CRLF));
      ConcatAssociates(lines[0], CRLF, Join(lines[1..], CRLF));
    }
  }
}
