/**
 Bodies made of lines: any mix of CRLF and LF, continuations with a space or a
 tab, and the same text with LF for every line end.
 */
module FoldedBody {
  import opened JsString
  import opened Results
  import LineFolding

  // ---------- CRLF written as LF ----------

  function Lf(s: Str): (t: Str) {
    if s == [] then [] else if StartsWithCrlf(s) then [LF] + Lf(s[2..]) else [s[0]] + Lf(s[1..])
  }

  /** A carriage return occurs only before a line feed. */
  predicate Paired(s: Str) {
    forall i | 0 <= i < |s| :: s[i] == CR ==> i + 1 < |s| && s[i + 1] == LF
  }

  lemma PairedTail(s: Str, k: nat)
    requires Paired(s) && k <= |s|
    ensures Paired(s[k..])
  {
    forall i | 0 <= i < |s| - k ensures s[k..][i] == CR ==> i + 1 < |s| - k && s[k..][i + 1] == LF {
      assert s[k..][i] == s[k + i];
    }
  }

  lemma PairedConcat(a: Str, b: Str)
    requires Paired(a) && Paired(b)
    ensures Paired(a + b)
  {
  }

  lemma PairedUnit(u: Unit)
    requires u != CR
    ensures Paired([u]) && Paired(CRLF)
  {
  }

  /** The first line end, or the first other unit, of a paired text. */
  lemma PairedHead(s: Str)
    requires Paired(s) && s != []
    ensures s[0] == CR <==> StartsWithCrlf(s)
    ensures StartsWithCrlf(s) ==> Lf(s) == [LF] + Lf(s[2..]) && Paired(s[2..]) && Paired(s[1..])
    ensures !StartsWithCrlf(s) ==> Lf(s) == [s[0]] + Lf(s[1..]) && Paired(s[1..])
    ensures Lf(s)[0] == if StartsWithCrlf(s) then LF else s[0]
    ensures Lf(s)[1..] == Lf(s[if StartsWithCrlf(s) then 2 else 1..])
  {
    PairedTail(s, 1);
    if StartsWithCrlf(s) {
      PairedTail(s, 2);
    }
  }

  lemma {:induction false} LfConcat(a: Str, b: Str)
    requires Paired(a)
    ensures Lf(a + b) == Lf(a) + Lf(b)
    decreases |a|
  {
    if a == [] {
      assert a + b == b;
    } else {
      var n := if StartsWithCrlf(a) then 2 else 1;
      PairedHead(a);
      LfConcat(a[n..], b);
      SameHead(a, b, n);
      LfHead(a + b);
      ConcatAssociates([Lf(a)[0]], Lf(a[n..]), Lf(b));
    }
  }

  lemma SameHead(a: Str, b: Str, n: nat)
    requires Paired(a) && a != [] && n == (if StartsWithCrlf(a) then 2 else 1)
    ensures (a + b)[n..] == a[n..] + b && (StartsWithCrlf(a + b) <==> StartsWithCrlf(a)) && (a + b)[0] == a[0]
  {
    var s := a + b;
    assert s[0] == a[0] && (|a| > 1 ==> s[1] == a[1]);
    assert a[0] == CR ==> |a| > 1 && a[1] == LF;
  }

  lemma LfHead(s: Str)
    requires s != []
    ensures Lf(s) == if StartsWithCrlf(s) then [LF] + Lf(s[2..]) else [s[0]] + Lf(s[1..])
  {
  }

  lemma {:induction false} LfOneLine(a: Str)
    requires OneLine(a)
    ensures Lf(a) == a && Paired(a)
  {
    if a != [] {
      assert a[0] in a;
      LfOneLine(a[1..]);
      assert !StartsWithCrlf(a);
    }
  }

  /** A line end, or another unit, in front. */
  lemma LfAfter(head: Str, rest: Str)
    requires (head == CRLF || (|head| == 1 && head[0] != CR)) && Paired(rest)
    ensures Paired(head + rest) && Lf(head + rest) == [if head == CRLF then LF else head[0]] + Lf(rest)
  {
    var s := head + rest;
    PairedUnit(if head == CRLF then LF else head[0]);
    PairedConcat(head, rest);
    assert s[|head|..] == rest;
    PairedHead(s);
  }

  lemma {:induction false} LfNoCr(s: Str)
    requires Paired(s)
    ensures CR !in Lf(s)
    decreases |s|
  {
    if s != [] {
      PairedHead(s);
      LfNoCr(s[if StartsWithCrlf(s) then 2 else 1..]);
      HeadAndTail(Lf(s));
    }
  }

  lemma LfEnd(crlf: bool)
    ensures var end: Str := if crlf then CRLF else [LF]; Lf(end) == [LF] && Paired(end)
  {
    assert CRLF[2..] == [] && Lf([]) == [];
  }

  // ---------- bodies as they stand ----------

  /** A continuation: the line end before it, its blank and its text. */
  datatype Fold = Fold(crlf: bool, blank: Unit, text: Str)

  /** A line with its continuations and the line end after them. */
  datatype Folded = Folded(text: Str, folds: seq<Fold>, crlf: bool)

  function LineEnd(crlf: bool): Str {
    if crlf then CRLF else [LF]
  }

  function FoldsText(folds: seq<Fold>): Str {
    if folds == [] then []
    else LineEnd(folds[0].crlf) + ([folds[0].blank] + (folds[0].text + FoldsText(folds[1..])))
  }

  function Body(fs: seq<Folded>): Str {
    if fs == [] then []
    else fs[0].text + (FoldsText(fs[0].folds) + (LineEnd(fs[0].crlf) + Body(fs[1..])))
  }

  function Rest(folds: seq<Fold>): Str {
    if folds == [] then [] else folds[0].text + Rest(folds[1..])
  }

  /** The lines that are meant. */
  function Lines(fs: seq<Folded>): (lines: seq<Str>)
    ensures |lines| == |fs|
  {
    seq(|fs|, i requires 0 <= i < |fs| => fs[i].text + Rest(fs[i].folds))
  }

  /** A continuation starts with a space or a tab, a line with neither, and no text holds a line end. */
  predicate FoldFits(f: Fold) {
    OneLine(f.text) && (f.blank == 32 || f.blank == 9)
  }

  predicate FoldsFit(folds: seq<Fold>) {
    forall i | 0 <= i < |folds| :: FoldFits(folds[i])
  }

  predicate AllFit(fs: seq<Folded>) {
    forall i | 0 <= i < |fs| :: OneLine(fs[i].text) && !LineFolding.StartsBlank(fs[i].text) && FoldsFit(fs[i].folds)
  }

  /** Lines each ended by LF. */
  function LfEnded(lines: seq<Str>): Str {
    if lines == [] then [] else lines[0] + ([LF] + LfEnded(lines[1..]))
  }

  lemma LfLineEnd(crlf: bool, rest: Str)
    requires Paired(rest)
    ensures Paired(LineEnd(crlf) + rest) && Lf(LineEnd(crlf) + rest) == [LF] + Lf(rest)
  {
    LfAfter(LineEnd(crlf), rest);
  }

  lemma LfText(text: Str, rest: Str)
    requires OneLine(text) && Paired(rest)
    ensures Paired(text + rest) && Lf(text + rest) == text + Lf(rest)
  {
    LfOneLine(text);
    PairedConcat(text, rest);
    LfConcat(text, rest);
  }

  lemma BlankOneLine(blank: Unit)
    requires blank == 32 || blank == 9
    ensures OneLine([blank]) && LineFolding.IsBlank(blank)
  {
  }

  lemma FoldApart(f: Fold, more: Str, rest: Str)
    ensures LineEnd(f.crlf) + ([f.blank] + (f.text + more)) + rest
         == LineEnd(f.crlf) + ([f.blank] + (f.text + (more + rest)))
  {
    ConcatAssociates(f.text, more, rest);
    ConcatAssociates([f.blank], f.text + more, rest);
    ConcatAssociates(LineEnd(f.crlf), [f.blank] + (f.text + more), rest);
  }

  lemma {:induction false} FoldsPaired(folds: seq<Fold>, rest: Str)
    requires FoldsFit(folds) && Paired(rest)
    ensures Paired(FoldsText(folds) + rest)
  {
    if folds == [] {
      assert FoldsText(folds) + rest == rest;
    } else {
      var f, more := folds[0], FoldsText(folds[1..]) + rest;
      FoldsPaired(folds[1..], rest);
      FoldApart(f, FoldsText(folds[1..]), rest);
      BlankOneLine(f.blank);
      LfText(f.text, more);
      LfText([f.blank], f.text + more);
      LfLineEnd(f.crlf, [f.blank] + (f.text + more));
    }
  }

  lemma {:induction false} BodyPaired(fs: seq<Folded>)
    requires AllFit(fs)
    ensures Paired(Body(fs)) && !LineFolding.StartsBlank(Body(fs))
  {
    if fs != [] {
      BodyPaired(fs[1..]);
      LfLineEnd(fs[0].crlf, Body(fs[1..]));
      FoldsPaired(fs[0].folds, LineEnd(fs[0].crlf) + Body(fs[1..]));
      LfText(fs[0].text, FoldsText(fs[0].folds) + (LineEnd(fs[0].crlf) + Body(fs[1..])));
      BodyStart(fs);
    }
  }

  lemma BodyStart(fs: seq<Folded>)
    requires AllFit(fs) && fs != []
    ensures !LineFolding.StartsBlank(Body(fs))
  {
    var rest := FoldsText(fs[0].folds) + (LineEnd(fs[0].crlf) + Body(fs[1..]));
    if fs[0].text == [] {
      assert Body(fs) == rest;
      assert rest[0] == CR || rest[0] == LF;
    } else {
      assert Body(fs)[0] == fs[0].text[0];
    }
  }

  lemma {:induction false} RestOneLine(folds: seq<Fold>)
    requires FoldsFit(folds)
    ensures OneLine(Rest(folds))
  {
    if folds != [] {
      assert FoldFits(folds[0]);
      RestOneLine(folds[1..]);
    }
  }

  lemma LinesOneLine(fs: seq<Folded>)
    requires AllFit(fs)
    ensures AllOneLine(Lines(fs))
  {
    forall i | 0 <= i < |fs| ensures OneLine(Lines(fs)[i]) {
      RestOneLine(fs[i].folds);
    }
  }
}
