/**
 Folding of content lines at 75 octets (section 3.1 of RFC 5545 and section
 3.2 of RFC 6350): the two printers' algorithms and the two ways of unfolding.
 */
module LineFolding {
  import opened JsString
  import opened Results

  const FOLD: Str := [CR, LF, SP]

  predicate IsBlank(u: Unit) {
    u == SP || u == TAB
  }

  predicate StartsBlank(s: Str) {
    s != [] && IsBlank(s[0])
  }

  // ---------- the calendar printer ----------

  /** The chunks of a line, given that `current` was read and `rest` is still to come. */
  function ICalChunks(current: Str, rest: Str, limit: nat): (chunks: seq<Str>)
    ensures chunks != []
    decreases |rest|
  {
    if rest == [] then [current]
    else
      var n := PointLength(rest);
      if Octets(current + rest[..n]) > limit && current != [] then
        [current] + ICalChunks(rest[..n], rest[n..], 74)
      else ICalChunks(current + rest[..n], rest[n..], limit)
  }

  function ICalFold(line: Str): Str {
    Join(ICalChunks([], line, 75), FOLD)
  }

  /** What the next code point does to the chunks still to come. */
  lemma ChunksStep(output: seq<Str>, current: Str, rest: Str, limit: nat)
    requires rest != []
    ensures var n := PointLength(rest);
      output + ICalChunks(current, rest, limit) ==
        if Octets(current + rest[..n]) > limit && current != []
        then (output + [current]) + ICalChunks(rest[..n], rest[n..], 74)
        else output + ICalChunks(current + rest[..n], rest[n..], limit)
  {
    var n := PointLength(rest);
    ConcatAssociates(output, [current], ICalChunks(rest[..n], rest[n..], 74));
  }

  method FoldLine(line: Str) returns (folded: Str)
    ensures folded == ICalFold(line)
  {
    var output: seq<Str> := [];
    var current: Str := [];
    var limit := 75;
    var index := 0;
    while index < |line|
      invariant 0 <= index <= |line|
      invariant limit == 74 || limit == 75
      invariant output + ICalChunks(current, line[index..], limit) == ICalChunks([], line, 75)
    {
      var n := PointLength(line[index..]);
      var character := line[index..][..n];
      assert line[index..][n..] == line[index + n..];
      ChunksStep(output, current, line[index..], limit);
      if Octets(current + character) > limit && current != [] {
        output := output + [current];
        current := character;
        limit := 74;
      } else {
        current := current + character;
      }
      index := index + n;
    }
    output := output + [current];
    folded := Join(output, FOLD);
  }

  /** No surrogate pair is cut between neighbouring chunks. */
  predicate KeepsPairs(chunks: seq<Str>) {
    forall i | 0 <= i < |chunks| - 1 :: !SplitsPair(chunks[i], chunks[i + 1])
  }

  /** Each chunk but the last is as long as its limit lets it be. */
  predicate Greedy(chunks: seq<Str>, first: nat, later: nat) {
    forall i | 0 <= i < |chunks| - 1 :: IsFull(chunks[i], chunks[i + 1], if i == 0 then first else later)
  }

  /** The code point that starts the next chunk would not have fitted any more. */
  predicate IsFull(chunk: Str, next: Str, limit: nat) {
    next != [] && Octets(chunk + next[..PointLength(next)]) > limit
  }

  predicate FitsOctets(chunks: seq<Str>, first: nat, later: nat) {
    forall i | 0 <= i < |chunks| :: Octets(chunks[i]) <= if i == 0 then first else later
  }

  // The first chunk starts with what was already read of it.
  predicate Extends(chunk: Str, current: Str) {
    current <= chunk
  }

  lemma ChunkInFront(current: Str, point: Str, rest: Str, tail: seq<Str>, limit: nat)
    requires point != [] && current != [] && !SplitsPair(current, point + rest)
    requires Octets(current) <= limit && ChunkedFrom(tail, point, rest, 74)
    ensures ChunkedFrom([current] + tail, current, point + rest, limit)
  {
    var chunks := [current] + tail;
    assert tail[0][0] == point[0];
    assert chunks[1..] == tail;
    forall i | 0 <= i < |chunks| - 1 ensures !SplitsPair(chunks[i], chunks[i + 1]) {
      if i > 0 {
        assert chunks[i] == tail[i - 1] && chunks[i + 1] == tail[i];
      }
    }
  }

  // What the chunks of `current` followed by `rest` look like.
  predicate ChunkedFrom(chunks: seq<Str>, current: Str, rest: Str, limit: nat) {
    && chunks != [] && Concat(chunks) == current + rest
    && FitsOctets(chunks, limit, 74) && KeepsPairs(chunks) && Extends(chunks[0], current)
    && (current == [] ==> rest == [] || chunks[0] != [])
  }

  lemma {:induction false} ICalChunksFromHere(current: Str, rest: Str, limit: nat)
    requires 74 <= limit && Octets(current) <= limit && !SplitsPair(current, rest)
    ensures ChunkedFrom(ICalChunks(current, rest, limit), current, rest, limit)
    decreases |rest|
  {
    if rest == [] {
      assert Concat([current]) == current + [];
    } else {
      var n := PointLength(rest);
      var point, more := rest[..n], rest[n..];
      assert rest == point + more;
      PointOctets(rest);
      ChunksStep([], current, rest, limit);
      if Octets(current + point) > limit && current != [] {
        ICalChunksFromHere(point, more, 74);
        ChunkInFront(current, point, more, ICalChunks(point, more, 74), limit);
      } else {
        if current == [] { assert current + point == point; }
        ICalChunksFromHere(current + point, more, limit);
        ChunkGrows(ICalChunks(current + point, more, limit), current, point, more, limit);
      }
    }
  }

  lemma ChunkGrows(chunks: seq<Str>, current: Str, point: Str, more: Str, limit: nat)
    requires point != [] && ChunkedFrom(chunks, current + point, more, limit)
    ensures ChunkedFrom(chunks, current, point + more, limit)
  {
    ConcatAssociates(current, point, more);
    assert current <= current + point;
  }

  // The code point a string starts with: at most four octets, and complete.
  lemma PointOctets(s: Str)
    requires s != []
    ensures var n := PointLength(s); Octets(s[..n]) <= 4 && !SplitsPair(s[..n], s[n..])
  {
    var n := PointLength(s);
    assert s[..n][n..] == [];
  }

  lemma {:induction false} ICalChunksGreedy(current: Str, rest: Str, limit: nat)
    requires 74 <= limit && !SplitsPair(current, rest)
    ensures Greedy(ICalChunks(current, rest, limit), limit, 74)
    decreases |rest|
  {
    if rest != [] {
      var n := PointLength(rest);
      var point := rest[..n];
      PointOctets(rest);
      if Octets(current + point) > limit && current != [] {
        var tail := ICalChunks(point, rest[n..], 74);
        ICalChunksGreedy(point, rest[n..], 74);
        ICalChunksFromHere(point, rest[n..], 74);
        var chunks := [current] + tail;
        assert rest == point + rest[n..] == tail[0] + Concat(tail[1..]);
        assert tail[0][..n] == point;
        forall i | 0 <= i < |chunks| - 1
          ensures IsFull(chunks[i], chunks[i + 1], if i == 0 then limit else 74)
        {
          if i > 0 {
            assert chunks[i] == tail[i - 1] && chunks[i + 1] == tail[i - 1 + 1];
          }
        }
      } else {
        ICalChunksGreedy(current + point, rest[n..], limit);
      }
    }
  }

  /**
   Every folded line is cut into complete code points, each physical line has at
   most 75 octets (the leading space of a continuation included) and is as long
   as that allows, and nothing is lost.
   */
  lemma ICalFoldFits(line: Str)
    ensures var chunks := ICalChunks([], line, 75);
      && Concat(chunks) == line
      && KeepsPairs(chunks)
      && Octets(chunks[0]) <= 75
      && (forall i | 0 < i < |chunks| :: Octets([SP] + chunks[i]) <= 75)
      && Greedy(chunks, 75, 74)
  {
    var chunks := ICalChunks([], line, 75);
    ICalChunksFromHere([], line, 75);
    ICalChunksGreedy([], line, 75);
    assert [] + line == line;
    forall i | 0 < i < |chunks| ensures Octets([SP] + chunks[i]) <= 75 {
      OctetsConcat([SP], chunks[i]);
      assert Octets([SP]) == 1 by { assert [SP][1..] == []; }
    }
  }

  // ---------- the calendar parser ----------

  /** `body.replace(/\r?\n[ \t]/g, "")`. */
  function ICalUnfold(s: Str): Str {
    if s == [] then []
    else if |s| >= 3 && s[0] == CR && s[1] == LF && IsBlank(s[2]) then ICalUnfold(s[3..])
    else if |s| >= 2 && s[0] == LF && IsBlank(s[1]) then ICalUnfold(s[2..])
    else [s[0]] + ICalUnfold(s[1..])
  }

  lemma UnfoldUnit(s: Str)
    requires s != [] && s[0] != CR && s[0] != LF
    ensures ICalUnfold(s) == [s[0]] + ICalUnfold(s[1..])
  {
  }

  lemma {:induction false} UnfoldSkips(a: Str, rest: Str)
    requires OneLine(a)
    ensures ICalUnfold(a + rest) == a + ICalUnfold(rest)
  {
    if a == [] {
      assert a + rest == rest;
    } else {
      assert a[0] in a;
      UnfoldSkips(a[1..], rest);
      TailOfConcat(a, rest);
      UnfoldUnit(a + rest);
      HeadAndTail(a);
      ConcatAssociates([a[0]], a[1..], ICalUnfold(rest));
    }
  }

  lemma {:induction false} UnfoldChunks(chunks: seq<Str>, rest: Str)
    requires AllOneLine(chunks)
    ensures ICalUnfold(Join(chunks, FOLD) + rest) == Concat(chunks) + ICalUnfold(rest)
  {
    if |chunks| == 0 {
      assert Join(chunks, FOLD) + rest == rest;
    } else if |chunks| == 1 {
      UnfoldSkips(chunks[0], rest);
      assert Concat(chunks) == chunks[0] + Concat(chunks[1..]);
    } else {
      var more := Join(chunks[1..], FOLD);
      UnfoldChunks(chunks[1..], rest);
      assert Join(chunks, FOLD) + rest == chunks[0] + (FOLD + (more + rest));
      UnfoldSkips(chunks[0], FOLD + (more + rest));
      assert (FOLD + (more + rest))[3..] == more + rest;
      ConcatAssociates(chunks[0], Concat(chunks[1..]), ICalUnfold(rest));
    }
  }

  lemma {:induction false} PartsOneLine(chunks: seq<Str>)
    requires OneLine(Concat(chunks))
    ensures AllOneLine(chunks)
  {
    if chunks != [] {
      assert forall u | u in chunks[0] :: u in Concat(chunks);
      assert forall u | u in Concat(chunks[1..]) :: u in Concat(chunks);
      PartsOneLine(chunks[1..]);
      assert forall i | 0 < i < |chunks| :: chunks[i] == chunks[1..][i - 1];
    }
  }

  function MapICalFold(lines: seq<Str>): (r: seq<Str>)
    ensures |r| == |lines|
    ensures forall i | 0 <= i < |lines| :: r[i] == ICalFold(lines[i])
  {
    seq(|lines|, i requires 0 <= i < |lines| => ICalFold(lines[i]))
  }

  lemma UnfoldLine(line: Str, rest: Str)
    requires OneLine(line) && !StartsBlank(rest)
    ensures ICalUnfold(ICalFold(line) + (CRLF + rest)) == line + (CRLF + ICalUnfold(rest))
  {
    var chunks := ICalChunks([], line, 75);
    ICalFoldFits(line);
    PartsOneLine(chunks);
    UnfoldChunks(chunks, CRLF + rest);
    UnfoldBreak(rest);
  }

  lemma UnfoldBreak(rest: Str)
    requires !StartsBlank(rest)
    ensures ICalUnfold(CRLF + rest) == CRLF + ICalUnfold(rest)
  {
    assert (CRLF + rest)[1..] == [LF] + rest && ([LF] + rest)[1..] == rest;
    assert CRLF + ICalUnfold(rest) == [CR] + ([LF] + ICalUnfold(rest));
  }

  /** The text of a calendar body: every line folded and ended by CRLF. */
  function ICalBody(lines: seq<Str>): Str {
    Join(MapICalFold(lines), CRLF) + CRLF
  }

  /** Unfolding a body gives back every line that was folded into it. */
  lemma {:induction false} ICalUnfoldInvertsFold(lines: seq<Str>)
    requires lines != [] && AllOneLine(lines)
    requires forall i | 0 < i < |lines| :: !StartsBlank(lines[i])
    ensures ICalUnfold(ICalBody(lines)) == Join(lines, CRLF) + CRLF
  {
    if |lines| == 1 {
      UnfoldLine(lines[0], []);
      assert CRLF + [] == CRLF;
    } else {
      assert MapICalFold(lines)[1..] == MapICalFold(lines[1..]);
      ICalUnfoldInvertsFold(lines[1..]);
      BodyStart(lines[1..]);
      UnfoldLine(lines[0], ICalBody(lines[1..]));
      JoinTail(MapICalFold(lines));
      JoinTail(lines);
    }
  }

  lemma JoinTail(lines: seq<Str>)
    requires |lines| > 1
    ensures Join(lines, CRLF) + CRLF == lines[0] + (CRLF + (Join(lines[1..], CRLF) + CRLF))
  {
  }

  // A folded body starts as its first line does.
  lemma BodyStart(lines: seq<Str>)
    requires lines != [] && !StartsBlank(lines[0])
    ensures !StartsBlank(ICalBody(lines))
  {
    var line := lines[0];
    var chunks := ICalChunks([], line, 75);
    ICalChunksFromHere([], line, 75);
    assert [] + line == line;
    if line == [] {
      assert chunks == [[]];
      assert ICalFold(line) == [];
    } else {
      assert chunks[0] != [] && chunks[0][0] == Concat(chunks)[0];
      assert ICalFold(line)[0] == line[0];
    }
  }

  // ---------- the contact printer ----------

  /** The inner loop of `fold`: back off until the chunk has at most 75 octets. */
  function BackOff(rest: Str, end: nat): (r: nat)
    requires end <= |rest|
    ensures r <= end && Octets(rest[..r]) <= 75
    ensures end >= 25 ==> r >= 25
  {
    if Octets(rest[..end]) > 75 then BackOff(rest, end - 1) else end
  }

  /** Where `fold` cuts a text of more than 75 octets. */
  function CutPoint(rest: Str): (end: nat)
    requires Octets(rest) > 75
    ensures 24 <= end <= 75 && end < |rest|
    ensures Octets(rest[..end]) <= 75
    ensures !SplitsPair(rest[..end], rest[end..])
  {
    var limit := if |rest| < 75 then |rest| else 75;
    var end := BackOff(rest, limit);
    assert rest[..|rest|] == rest;
    if IsHigh(rest[end - 1]) then
      assert Octets(rest[..end]) == Octets(rest[..end - 1]) + Octets([rest[end - 1]]) by {
        OctetsConcat(rest[..end - 1], [rest[end - 1]]);
        assert rest[..end] == rest[..end - 1] + [rest[end - 1]];
      }
      end - 1
    else end
  }

  function VCardChunks(rest: Str): (chunks: seq<Str>)
    ensures chunks != []
    decreases |rest|
  {
    if Octets(rest) <= 75 then [rest]
    else [rest[..CutPoint(rest)]] + VCardChunks(rest[CutPoint(rest)..])
  }

  function VCardFold(line: Str): Str {
    Join(VCardChunks(line), FOLD)
  }

  /** The two steps that choose a cut. */
  method ChooseCut(rest: Str) returns (end: nat)
    requires Octets(rest) > 75
    ensures end == CutPoint(rest)
  {
    end := if |rest| < 75 then |rest| else 75;
    ghost var limit := end;
    while Octets(rest[..end]) > 75
      invariant end <= |rest|
      invariant BackOff(rest, limit) == BackOff(rest, end)
      decreases end
    {
      end := end - 1;
    }
    if IsHigh(rest[end - 1]) {
      end := end - 1;
    }
  }

  /** `fold`; its error for a line that cannot be cut is never thrown. */
  method Fold(line: Str) returns (folded: Str)
    ensures folded == VCardFold(line)
  {
    var chunks: seq<Str> := [];
    var rest := line;
    while Octets(rest) > 75
      invariant chunks + VCardChunks(rest) == VCardChunks(line)
      decreases |rest|
    {
      var end := ChooseCut(rest);
      if end <= 0 {
        assert false;  // "unable to fold vCard content line"
      }
      chunks := chunks + [rest[..end]];
      rest := rest[end..];
    }
    folded := Join(chunks + [rest], FOLD);
  }

  lemma {:induction false} VCardChunksCover(line: Str)
    ensures var chunks := VCardChunks(line);
      Concat(chunks) == line && chunks[0] <= line && (line != [] ==> chunks[0] != [])
    decreases |line|
  {
    if Octets(line) <= 75 {
      assert Concat([line]) == line + [];
    } else {
      var end := CutPoint(line);
      VCardChunksCover(line[end..]);
      assert line == line[..end] + line[end..];
      assert Concat([line[..end]] + VCardChunks(line[end..])) == line[..end] + Concat(VCardChunks(line[end..]));
    }
  }

  /**
   Every chunk has at most 75 octets, so a continuation line at most 76 with its
   leading space; no surrogate pair is cut; nothing is lost.
   */
  lemma {:induction false} VCardFoldFits(line: Str)
    ensures var chunks := VCardChunks(line);
      Concat(chunks) == line && KeepsPairs(chunks) && FitsOctets(chunks, 75, 75)
    decreases |line|
  {
    VCardChunksCover(line);
    if Octets(line) > 75 {
      var end := CutPoint(line);
      var tail := VCardChunks(line[end..]);
      VCardFoldFits(line[end..]);
      VCardChunksCover(line[end..]);
      assert tail[0][0] == line[end];
      KeepsPairsPrepend(line[..end], tail);
    }
  }

  lemma KeepsPairsPrepend(chunk: Str, tail: seq<Str>)
    requires KeepsPairs(tail) && tail != [] && !SplitsPair(chunk, tail[0])
    ensures KeepsPairs([chunk] + tail)
  {
    var chunks := [chunk] + tail;
    forall i | 0 <= i < |chunks| - 1 ensures !SplitsPair(chunks[i], chunks[i + 1]) {
      if i > 0 {
        assert chunks[i] == tail[i - 1] && chunks[i + 1] == tail[i - 1 + 1];
      }
    }
  }

  // ---------- when continuation lines keep to 75 octets ----------

  /** Every continuation line, its leading space included, has at most 75 octets. */
  predicate ContinuationsFit(chunks: seq<Str>) {
    forall i | 0 < i < |chunks| :: Octets([SP] + chunks[i]) <= 75
  }

  lemma SpaceAddsOne(chunk: Str)
    ensures Octets([SP] + chunk) == Octets(chunk) + 1
  {
    OctetsConcat([SP], chunk);
    assert Octets([SP]) == 1 by { assert [SP][1..] == []; }
  }

  predicate IsAscii(s: Str) {
    forall i | 0 <= i < |s| :: s[i] < 128
  }

  lemma AsciiCut(rest: Str)
    requires IsAscii(rest) && |rest| > 75
    ensures Octets(rest) > 75 && CutPoint(rest) == 75
  {
    OctetsOfAscii(rest);
    OctetsOfAscii(rest[..75]);
    assert BackOff(rest, 75) == 75;
  }

  /** The second physical line of an ASCII text is filled to 75 octets before its space is added. */
  lemma AsciiSecondChunk(line: Str)
    requires IsAscii(line) && |line| > 75
    ensures |VCardChunks(line)| >= 2
    ensures Octets(VCardChunks(line)[1]) == if |line| < 150 then |line| - 75 else 75
    ensures |line| <= 150 ==> |VCardChunks(line)| == 2
  {
    var rest := line[75..];
    AsciiCut(line);
    OctetsOfAscii(rest);
    if |rest| > 75 {
      AsciiCut(rest);
      OctetsOfAscii(rest[..75]);
    }
  }

  /** For an ASCII line the bound of 75 octets holds exactly below 150 characters. */
  lemma AsciiContinuationsFit(line: Str)
    requires IsAscii(line)
    ensures ContinuationsFit(VCardChunks(line)) <==> |line| < 150
  {
    if |line| <= 75 {
      OctetsOfAscii(line);
      assert VCardChunks(line) == [line];
    } else {
      AsciiSecondChunk(line);
      SecondDecides(VCardChunks(line), |line|);
    }
  }

  lemma SecondDecides(chunks: seq<Str>, n: nat)
    requires |chunks| >= 2 && (n < 150 ==> |chunks| == 2) && n > 75
    requires Octets(chunks[1]) == if n < 150 then n - 75 else 75
    ensures ContinuationsFit(chunks) <==> n < 150
  {
    SpaceAddsOne(chunks[1]);
  }

  lemma {:induction false} OctetsAtLeast(s: Str)
    ensures Octets(s) >= |s|
  {
    if s != [] {
      OctetsAtLeast(s[PointLength(s)..]);
    }
  }

  /** One more unit costs at most three octets. */
  lemma {:induction false} OctetsSnoc(s: Str, u: Unit)
    ensures Octets(s + [u]) <= Octets(s) + 3
  {
    if s == [] {
      assert s + [u] == [u] && [u][1..] == [];
    } else if PointLength(s + [u]) == PointLength(s) {
      var n := PointLength(s);
      OctetsSnoc(s[n..], u);
      assert (s + [u])[n..] == s[n..] + [u];
    } else {
      assert |s| == 1 && s[1..] == [] && (s + [u])[2..] == [];
    }
  }

  lemma {:induction false} BackOffStops(rest: Str, end: nat)
    requires end <= |rest| && BackOff(rest, end) < end
    ensures Octets(rest[..BackOff(rest, end) + 1]) > 75
  {
    if BackOff(rest, end - 1) < end - 1 {
      BackOffStops(rest, end - 1);
    }
  }

  lemma BackOffOctets(rest: Str, limit: nat)
    requires Octets(rest) > 75 && limit == if |rest| < 75 then |rest| else 75
    ensures Octets(rest[..BackOff(rest, limit)]) >= 73
  {
    var end := BackOff(rest, limit);
    assert rest[..|rest|] == rest;
    if end < limit {
      BackOffStops(rest, limit);
      OctetsSnoc(rest[..end], rest[end]);
      assert rest[..end + 1] == rest[..end] + [rest[end]];
    } else {
      OctetsAtLeast(rest[..end]);
    }
  }

  /** A cut leaves at most five of the 75 octets unused. */
  lemma CutOctets(rest: Str)
    requires Octets(rest) > 75
    ensures Octets(rest[..CutPoint(rest)]) >= 70
  {
    var limit := if |rest| < 75 then |rest| else 75;
    var end := BackOff(rest, limit);
    BackOffOctets(rest, limit);
    if CutPoint(rest) == end - 1 {
      OctetsSnoc(rest[..end - 1], rest[end - 1]);
      assert rest[..end] == rest[..end - 1] + [rest[end - 1]];
    }
  }

  lemma RestOfShort(line: Str)
    requires 75 < Octets(line) <= 144
    ensures Octets(line[CutPoint(line)..]) <= 74
  {
    var end := CutPoint(line);
    CutOctets(line);
    OctetsConcat(line[..end], line[end..]);
    assert line == line[..end] + line[end..];
  }

  lemma TwoChunks(line: Str)
    requires Octets(line) > 75 && Octets(line[CutPoint(line)..]) <= 75
    ensures VCardChunks(line) == [line[..CutPoint(line)], line[CutPoint(line)..]]
  {
  }

  /** Any line of at most 144 octets keeps to the bound. */
  lemma ShortContinuationsFit(line: Str)
    requires Octets(line) <= 144
    ensures ContinuationsFit(VCardChunks(line))
  {
    if Octets(line) <= 75 {
      assert VCardChunks(line) == [line];
    } else {
      RestOfShort(line);
      TwoChunks(line);
      SpaceAddsOne(line[CutPoint(line)..]);
    }
  }

  lemma {:induction false} BackOffTo(rest: Str, end: nat, r: nat)
    requires r <= end <= |rest| && Octets(rest[..r]) <= 75
    requires forall k | r < k <= end :: Octets(rest[..k]) > 75
    ensures BackOff(rest, end) == r
  {
    if r < end {
      BackOffTo(rest, end - 1, r);
    }
  }

  /** 145 octets are too many: an unpaired high surrogate before a wide unit makes the first cut early. */
  lemma EarlyCut(front: Str, high: Unit, back: Str)
    requires IsAscii(front) && |front| == 70 && IsHigh(high)
    requires |back| == 70 && back[0] == 0x800 && IsAscii(back[1..])
    ensures var line := front + ([high] + back); Octets(line) == 145 && !ContinuationsFit(VCardChunks(line))
  {
    var tail := [high] + back;
    var line := front + tail;
    OctetsOfAscii(front);
    OctetsConcat(front, tail);
    WideStart(high, back, 69);
    assert tail[..71] == tail;
    forall k | 71 < k <= 75 ensures Octets(line[..k]) > 75 {
      WideStart(high, back, k - 72);
      OctetsConcat(front, tail[..k - 70]);
      assert line[..k] == front + tail[..k - 70];
    }
    OctetsConcat(front, [high]);
    assert line[..71] == front + [high] && [high][1..] == [];
    BackOffTo(line, 75, 71);
    assert line[..70] == front && line[70..] == tail && line[70] == high;
    assert CutPoint(line) == 70;
    TwoChunks(line);
    assert VCardChunks(line)[1] == tail;
    SpaceAddsOne(tail);
  }

  lemma WideStart(high: Unit, back: Str, n: nat)
    requires IsHigh(high) && |back| == 70 && back[0] == 0x800 && IsAscii(back[1..]) && n <= 69
    ensures Octets(([high] + back)[..n + 2]) == 6 + n
  {
    var s := ([high] + back)[..n + 2];
    OctetsOfAscii(back[1..][..n]);
    assert s[1..][1..] == back[1..][..n];
    assert Octets(s) == 3 + Octets(s[1..]);
  }

  /** A continuation line of 76 octets. */
  lemma ContinuationReaches76(line: Str)
    requires |line| == 150 && IsAscii(line)
    ensures var chunks := VCardChunks(line); |chunks| == 2 && Octets([SP] + chunks[1]) == 76
  {
    AsciiSecondChunk(line);
    SpaceAddsOne(VCardChunks(line)[1]);
  }

  lemma {:induction false} OctetsOfAscii(s: Str)
    requires IsAscii(s)
    ensures Octets(s) == |s|
  {
    if s != [] {
      OctetsOfAscii(s[1..]);
    }
  }

  // ---------- the contact parser ----------

  /** Physical lines appended to the lines unfolded so far. */
  function Merge(unfolded: seq<Str>, lines: seq<Str>): seq<Str>
    decreases |lines|
  {
    if lines == [] then unfolded else Merge(Push(unfolded, lines[0]), lines[1..])
  }

  function Push(unfolded: seq<Str>, line: Str): seq<Str> {
    if StartsBlank(line) && unfolded != [] then
      unfolded[..|unfolded| - 1] + [unfolded[|unfolded| - 1] + line[1..]]
    else unfolded + [line]
  }

  /** What `unfold` returns for a body. */
  function VCardUnfold(body: Str): seq<Str> {
    Merge([], Split(ReplaceAll(ReplaceAll(body, CRLF, [LF]), [CR], [LF]), LF))
  }

  method Unfold(body: Str) returns (unfolded: seq<Str>)
    ensures unfolded == VCardUnfold(body)
  {
    var lines := Split(ReplaceAll(ReplaceAll(body, CRLF, [LF]), [CR], [LF]), LF);
    unfolded := [];
    for i := 0 to |lines|
      invariant Merge(unfolded, lines[i..]) == Merge([], lines)
    {
      assert lines[i..][1..] == lines[i + 1..];
      if StartsBlank(lines[i]) && |unfolded| > 0 {
        var last := |unfolded| - 1;
        assert unfolded[last := unfolded[last] + lines[i][1..]] == Push(unfolded, lines[i]);
        unfolded := unfolded[last := unfolded[last] + lines[i][1..]];
      } else {
        unfolded := unfolded + [lines[i]];
      }
    }
  }

  /** The two newline replacements are the normalisation of line endings. */
  lemma {:induction false} NewlinePasses(s: Str)
    ensures ReplaceAll(ReplaceAll(s, CRLF, [LF]), [CR], [LF]) == Normalize(s)
  {
    if s != [] {
      var n := if StartsWithCrlf(s) then 2 else 1;
      var u := if StartsWithCrlf(s) then LF else s[0];
      var rest := ReplaceAll(s[n..], CRLF, [LF]);
      NewlinePasses(s[n..]);
      assert ReplaceAll(s, CRLF, [LF]) == [u] + rest by {
        if |s| == 1 { assert s == [s[0]] + s[1..]; }
      }
      ReplaceUnitStep([u] + rest, CR, [LF]);
      assert ([u] + rest)[1..] == rest;
      if StartsWithCrlf(s) { assert s[0] == CR; }
    }
  }

  lemma {:induction false} SplitOneLine(a: Str, rest: Str)
    requires OneLine(a)
    ensures Split(Normalize(a + (CRLF + rest)), LF) == [a] + Split(Normalize(rest), LF)
  {
    if a == [] {
      assert a + (CRLF + rest) == CRLF + rest;
      assert StartsWithCrlf(CRLF + rest) && (CRLF + rest)[2..] == rest;
    } else {
      assert a[0] in a;
      SplitOneLine(a[1..], rest);
      var s := a + (CRLF + rest);
      assert s[1..] == a[1..] + (CRLF + rest);
      assert Normalize(s) == [a[0]] + Normalize(s[1..]);
      assert ([a[0]] + Normalize(s[1..]))[1..] == Normalize(s[1..]);
      assert [a[0]] + a[1..] == a;
    }
  }

  /** The lines unfolded from `text` when `unfolded` was read before it. */
  function Unfolding(unfolded: seq<Str>, text: Str): seq<Str> {
    Merge(unfolded, Split(Normalize(text), LF))
  }

  lemma UnfoldPhysicalLine(unfolded: seq<Str>, a: Str, rest: Str)
    requires OneLine(a)
    ensures Unfolding(unfolded, a + (CRLF + rest)) == Unfolding(Push(unfolded, a), rest)
  {
    SplitOneLine(a, rest);
    assert ([a] + Split(Normalize(rest), LF))[1..] == Split(Normalize(rest), LF);
  }

  // Continuation lines end up on the last unfolded line, whatever they start with.
  lemma {:induction false} UnfoldContinuations(unfolded: seq<Str>, last: Str, chunks: seq<Str>, rest: Str)
    requires chunks != [] && AllOneLine(chunks)
    ensures Unfolding(unfolded + [last], [SP] + Join(chunks, FOLD) + (CRLF + rest))
         == Unfolding(unfolded + [last + Concat(chunks)], rest)
    decreases |chunks|
  {
    var all := unfolded + [last];
    var line := [SP] + chunks[0];
    assert line[1..] == chunks[0];
    assert Push(all, line) == unfolded + [last + chunks[0]];
    if |chunks| == 1 {
      UnfoldPhysicalLine(all, line, rest);
      assert Concat(chunks) == chunks[0] + Concat(chunks[1..]) == chunks[0];
    } else {
      var more := [SP] + Join(chunks[1..], FOLD) + (CRLF + rest);
      FoldedLineStart(chunks, rest);
      assert [SP] + Join(chunks, FOLD) + (CRLF + rest) == line + (CRLF + more);
      UnfoldPhysicalLine(all, line, more);
      UnfoldContinuations(unfolded, last + chunks[0], chunks[1..], rest);
      ConcatAssociates(last, chunks[0], Concat(chunks[1..]));
    }
  }

  lemma UnfoldFoldedLine(unfolded: seq<Str>, line: Str, rest: Str)
    requires OneLine(line)
    ensures Unfolding(unfolded, VCardFold(line) + (CRLF + rest)) == Unfolding(Push(unfolded, line), rest)
  {
    var chunks := VCardChunks(line);
    VCardChunksCover(line);
    PartsOneLine(chunks);
    if |chunks| == 1 {
      UnfoldPhysicalLine(unfolded, chunks[0], rest);
      assert Concat(chunks) == chunks[0] + Concat(chunks[1..]) == chunks[0];
    } else {
      FoldedLineStart(chunks, rest);
      UnfoldPhysicalLine(unfolded, chunks[0], [SP] + Join(chunks[1..], FOLD) + (CRLF + rest));
      var pushed := Push(unfolded, chunks[0]);
      var last := |pushed| - 1;
      PushLonger(unfolded, chunks[0], Concat(chunks[1..]));
      assert pushed == pushed[..last] + [pushed[last]];
      UnfoldContinuations(pushed[..last], pushed[last], chunks[1..], rest);
    }
  }

  lemma PushLonger(unfolded: seq<Str>, a: Str, b: Str)
    requires a != []
    ensures var pushed := Push(unfolded, a);
      Push(unfolded, a + b) == pushed[..|pushed| - 1] + [pushed[|pushed| - 1] + b]
  {
    if StartsBlank(a) && unfolded != [] {
      TailOfConcat(a, b);
      ConcatAssociates(unfolded[|unfolded| - 1], a[1..], b);
    }
  }

  lemma FoldedLineStart(chunks: seq<Str>, rest: Str)
    requires |chunks| > 1
    ensures Join(chunks, FOLD) + (CRLF + rest)
         == chunks[0] + (CRLF + ([SP] + Join(chunks[1..], FOLD) + (CRLF + rest)))
  {
  }

  function MapVCardFold(lines: seq<Str>): (r: seq<Str>)
    ensures |r| == |lines|
    ensures forall i | 0 <= i < |lines| :: r[i] == VCardFold(lines[i])
  {
    seq(|lines|, i requires 0 <= i < |lines| => VCardFold(lines[i]))
  }

  /** The text of a contact body: every line folded and ended by CRLF. */
  function VCardBody(lines: seq<Str>): Str {
    Join(MapVCardFold(lines), CRLF) + CRLF
  }

  lemma SingleVCardBody(line: Str)
    ensures VCardBody([line]) == VCardFold(line) + (CRLF + [])
  {
    assert CRLF + [] == CRLF;
  }

  lemma VCardBodyStep(lines: seq<Str>)
    requires |lines| > 1
    ensures VCardBody(lines) == VCardFold(lines[0]) + (CRLF + VCardBody(lines[1..]))
  {
    assert MapVCardFold(lines)[1..] == MapVCardFold(lines[1..]);
    JoinTail(MapVCardFold(lines));
  }

  lemma UnfoldNothing(unfolded: seq<Str>)
    ensures Unfolding(unfolded, []) == unfolded + [[]]
  {
    var empty: seq<Str> := [[]];
    assert empty[1..] == [];
    assert Merge(unfolded, empty) == Merge(Push(unfolded, []), []);
  }

  lemma {:induction false} UnfoldingBody(unfolded: seq<Str>, lines: seq<Str>)
    requires lines != [] && AllOneLine(lines)
    ensures Unfolding(unfolded, VCardBody(lines)) == Merge(unfolded, lines) + [[]]
    decreases |lines|
  {
    UnfoldFoldedLine(unfolded, lines[0], if |lines| == 1 then [] else VCardBody(lines[1..]));
    if |lines| == 1 {
      assert lines == [lines[0]];
      SingleVCardBody(lines[0]);
      UnfoldNothing(Push(unfolded, lines[0]));
    } else {
      VCardBodyStep(lines);
      UnfoldingBody(Push(unfolded, lines[0]), lines[1..]);
    }
  }

  /** Lines come back merged wherever one of them starts with a blank. */
  lemma VCardUnfoldFolded(lines: seq<Str>)
    requires lines != [] && AllOneLine(lines)
    ensures VCardUnfold(VCardBody(lines)) == Merge([], lines) + [[]]
  {
    NewlinePasses(VCardBody(lines));
    UnfoldingBody([], lines);
  }

  lemma {:induction false} MergeSeparate(unfolded: seq<Str>, lines: seq<Str>)
    requires forall i | 0 <= i < |lines| :: StartsBlank(lines[i]) ==> unfolded == [] && i == 0
    ensures Merge(unfolded, lines) == unfolded + lines
    decreases |lines|
  {
    if lines != [] {
      MergeSeparate(unfolded + [lines[0]], lines[1..]);
      HeadAndTail(lines);
      ConcatAssociates(unfolded, [lines[0]], lines[1..]);
    }
  }

  lemma {:induction false} MergeCount(unfolded: seq<Str>, lines: seq<Str>)
    ensures |Merge(unfolded, lines)| <= |unfolded| + |lines|
    ensures (exists i :: 0 <= i < |lines| && StartsBlank(lines[i]) && (i > 0 || unfolded != []))
        ==> |Merge(unfolded, lines)| < |unfolded| + |lines|
    decreases |lines|
  {
    if lines != [] {
      var next := Push(unfolded, lines[0]);
      assert next != [];
      MergeCount(next, lines[1..]);
      if i :| 0 <= i < |lines| && StartsBlank(lines[i]) && (i > 0 || unfolded != []) {
        if i > 0 {
          assert lines[i] == lines[1..][i - 1];
        }
      }
    }
  }

  /**
   Unfolding a contact body gives back its lines (and the empty text after the
   last CRLF) exactly when no line but the first starts with a blank.
   */
  lemma VCardUnfoldInvertsFold(lines: seq<Str>)
    requires lines != [] && AllOneLine(lines)
    ensures VCardUnfold(VCardBody(lines)) == lines + [[]]
       <==> forall i | 0 < i < |lines| :: !StartsBlank(lines[i])
  {
    VCardUnfoldFolded(lines);
    MergeCount([], lines);
    if forall i | 0 < i < |lines| :: !StartsBlank(lines[i]) {
      MergeSeparate([], lines);
      assert [] + lines == lines;
    }
  }
}
