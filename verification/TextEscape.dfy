/**
 Text values of calendar and contact properties: the escape functions of both
 packages, the two unescape functions, and what composing them does.

 The calendar package undoes escapes in one left-to-right pass; the contact
 package runs four replacements one after the other. That difference decides
 which texts survive a round trip.
 */
module TextEscape {
  import opened JsString

  // ---------- the printers ----------

  /** `escapeText` of the calendar package: six replacements in turn. */
  function ICalEscape(s: Str): Str {
    UnitPasses(DoubleThenCrlf(s, BACKSLASH))
  }

  /** `escapeText` of the contact package: line endings first, then four replacements. */
  function VCardEscape(s: Str): Str {
    var backslashes := ReplaceAll(Normalize(s), [BACKSLASH], [BACKSLASH, BACKSLASH]);
    LastPasses(ReplaceAll(backslashes, [LF], [BACKSLASH, LOWER_N]))
  }

  /** Both end by escaping semicolons and then commas. */
  function LastPasses(s: Str): Str {
    ReplaceAll(ReplaceAll(s, [SEMICOLON], [BACKSLASH, SEMICOLON]), [COMMA], [BACKSLASH, COMMA])
  }

  // ---------- one left-to-right pass ----------

  function EscapeUnit(u: Unit): (e: Str)
    ensures OneLine(e) && e != []
  {
    if u == LF || u == CR then [BACKSLASH, LOWER_N]
    else if u == BACKSLASH || u == SEMICOLON || u == COMMA then [BACKSLASH, u]
    else [u]
  }

  /** Each unit escaped where it stands; CRLF counts as one line ending. */
  function Escaped(s: Str): (e: Str)
    ensures OneLine(e)
    ensures e == [] <==> s == []
  {
    if s == [] then []
    else if StartsWithCrlf(s) then [BACKSLASH, LOWER_N] + Escaped(s[2..])
    else EscapeUnit(s[0]) + Escaped(s[1..])
  }

  // The passes after the CRLF one all have one-unit patterns; as a group they
  // distribute over concatenation.
  function UnitPasses(s: Str): Str {
    LastPasses(ReplaceAll(ReplaceAll(s, [LF], [BACKSLASH, LOWER_N]), [CR], [BACKSLASH, LOWER_N]))
  }

  lemma UnitPassesConcat(a: Str, b: Str)
    ensures UnitPasses(a + b) == UnitPasses(a) + UnitPasses(b)
  {
    var n := [BACKSLASH, LOWER_N];
    ReplaceUnitConcat(a, b, LF, n);
    var a1, b1 := ReplaceAll(a, [LF], n), ReplaceAll(b, [LF], n);
    ReplaceUnitConcat(a1, b1, CR, n);
    LastPassesConcat(ReplaceAll(a1, [CR], n), ReplaceAll(b1, [CR], n));
  }

  lemma LastPassesConcat(a: Str, b: Str)
    ensures LastPasses(a + b) == LastPasses(a) + LastPasses(b)
  {
    ReplaceUnitConcat(a, b, SEMICOLON, [BACKSLASH, SEMICOLON]);
    ReplaceUnitConcat(ReplaceAll(a, [SEMICOLON], [BACKSLASH, SEMICOLON]),
                      ReplaceAll(b, [SEMICOLON], [BACKSLASH, SEMICOLON]), COMMA, [BACKSLASH, COMMA]);
  }

  lemma ReplaceSingle(u: Unit, c: Unit, rep: Str)
    ensures ReplaceAll([u], [c], rep) == if u == c then rep else [u]
  {
    ReplaceUnitStep([u], c, rep);
  }

  lemma ReplacePair(u: Unit, v: Unit, c: Unit, rep: Str)
    requires u != c && v != c
    ensures ReplaceAll([u, v], [c], rep) == [u, v]
  {
    ReplaceAbsentUnit([u, v], c, rep);
  }

  lemma LastPassesUnit(u: Unit)
    ensures LastPasses([u]) == if u == SEMICOLON || u == COMMA then [BACKSLASH, u] else [u]
  {
    ReplaceSingle(u, SEMICOLON, [BACKSLASH, SEMICOLON]);
    ReplaceSingle(u, COMMA, [BACKSLASH, COMMA]);
    ReplacePair(BACKSLASH, SEMICOLON, COMMA, [BACKSLASH, COMMA]);
  }

  lemma LastPassesNewline()
    ensures LastPasses([BACKSLASH, LOWER_N]) == [BACKSLASH, LOWER_N]
  {
    ReplacePair(BACKSLASH, LOWER_N, SEMICOLON, [BACKSLASH, SEMICOLON]);
    ReplacePair(BACKSLASH, LOWER_N, COMMA, [BACKSLASH, COMMA]);
  }

  lemma UnitPassesUnit(u: Unit)
    ensures UnitPasses([u]) == if u == BACKSLASH then [u] else EscapeUnit(u)
  {
    var n := [BACKSLASH, LOWER_N];
    ReplaceSingle(u, LF, n);
    if u == LF {
      ReplacePair(BACKSLASH, LOWER_N, CR, n);
      LastPassesNewline();
    } else {
      ReplaceSingle(u, CR, n);
      LastPassesUnit(u);
      LastPassesNewline();
    }
  }

  // Both packages double the escape character and then turn CRLF into a
  // two-unit escape; this is what those two passes do at the front of a text.
  function DoubleThenCrlf(s: Str, esc: Unit): Str {
    ReplaceAll(ReplaceAll(s, [esc], [esc, esc]), CRLF, [esc, LOWER_N])
  }

  lemma DoubleThenCrlfAtCrlf(s: Str, esc: Unit)
    requires esc != CR && esc != LF
    requires StartsWithCrlf(s)
    ensures DoubleThenCrlf(s, esc) == [esc, LOWER_N] + DoubleThenCrlf(s[2..], esc)
  {
    ReplaceUnitStep(s, esc, [esc, esc]);
    ReplaceUnitStep(s[1..], esc, [esc, esc]);
    assert s[1..][1..] == s[2..];
    var rest := ReplaceAll(s[2..], [esc], [esc, esc]);
    var r := ReplaceAll(s, [esc], [esc, esc]);
    assert r == [CR, LF] + rest;
    assert StartsWithCrlf(r) && r[2..] == rest;
  }

  lemma DoubleThenCrlfAtUnit(s: Str, esc: Unit)
    requires esc != CR && esc != LF
    requires s != [] && !StartsWithCrlf(s)
    ensures DoubleThenCrlf(s, esc) == (if s[0] == esc then [esc, esc] else [s[0]]) + DoubleThenCrlf(s[1..], esc)
  {
    var u := s[0];
    ReplaceUnitStep(s, esc, [esc, esc]);
    var rest := ReplaceAll(s[1..], [esc], [esc, esc]);
    if |s| > 1 {
      ReplaceUnitStep(s[1..], esc, [esc, esc]);
      assert rest[0] == s[1];
    }
    CrlfPassSkips(u, rest, [esc, LOWER_N]);
    if u == esc {
      CrlfPassSkips(u, [u] + rest, [esc, LOWER_N]);
      ConcatAssociates([u], [u], rest);
      ConcatAssociates([u], [u], ReplaceAll(rest, CRLF, [esc, LOWER_N]));
      assert [u] + [u] == [esc, esc];
    }
  }

  lemma CrlfPassSkips(u: Unit, rest: Str, rep: Str)
    requires u == CR ==> rest == [] || rest[0] != LF
    ensures ReplaceAll([u] + rest, CRLF, rep) == [u] + ReplaceAll(rest, CRLF, rep)
  {
    var t := [u] + rest;
    assert t[1..] == rest;
    assert !StartsWithCrlf(t);
  }

  /** Successive replacement is the same as one pass over the original text. */
  lemma {:induction false} ICalEscapeIsOnePass(s: Str)
    ensures ICalEscape(s) == Escaped(s)
  {
    if s == [] {
    } else if StartsWithCrlf(s) {
      ICalEscapeIsOnePass(s[2..]);
      DoubleThenCrlfAtCrlf(s, BACKSLASH);
      UnitPassesConcat([BACKSLASH, LOWER_N], DoubleThenCrlf(s[2..], BACKSLASH));
      UnitPassesNewline();
    } else {
      var u := s[0];
      ICalEscapeIsOnePass(s[1..]);
      DoubleThenCrlfAtUnit(s, BACKSLASH);
      var head := if u == BACKSLASH then [u, u] else [u];
      UnitPassesConcat(head, DoubleThenCrlf(s[1..], BACKSLASH));
      UnitPassesUnit(u);
      UnitPassesConcat([u], [u]);
      assert [u] + [u] == [u, u];
    }
  }

  lemma UnitPassesNewline()
    ensures UnitPasses([BACKSLASH, LOWER_N]) == [BACKSLASH, LOWER_N]
  {
    UnitPassesUnit(BACKSLASH);
    UnitPassesUnit(LOWER_N);
    UnitPassesConcat([BACKSLASH], [LOWER_N]);
    assert [BACKSLASH] + [LOWER_N] == [BACKSLASH, LOWER_N];
  }

  /** The contact printer writes exactly what the calendar printer writes. */
  lemma {:induction false} VCardEscapeIsOnePass(s: Str)
    ensures VCardEscape(s) == Escaped(s)
  {
    if s == [] {
    } else {
      var n := if StartsWithCrlf(s) then 2 else 1;
      var u := if s[0] == CR then LF else s[0];
      var double := [BACKSLASH, BACKSLASH];
      var nl := [BACKSLASH, LOWER_N];
      VCardEscapeIsOnePass(s[n..]);
      assert Normalize(s) == [u] + Normalize(s[n..]) by {
        if StartsWithCrlf(s) { assert s[0] == CR; }
      }
      ReplaceUnitConcat([u], Normalize(s[n..]), BACKSLASH, double);
      ReplaceSingle(u, BACKSLASH, double);
      var head := if u == BACKSLASH then double else [u];
      var rest := ReplaceAll(Normalize(s[n..]), [BACKSLASH], double);
      ReplaceUnitConcat(head, rest, LF, nl);
      ReplaceSingle(u, LF, nl);
      ReplacePair(BACKSLASH, BACKSLASH, LF, nl);
      var head' := if u == LF then nl else head;
      LastPassesConcat(head', ReplaceAll(rest, [LF], nl));
      LastPassesUnit(u);
      LastPassesNewline();
      LastPassesConcat([u], [u]);
      assert [u] + [u] == [u, u];
    }
  }

  // ---------- the calendar parser ----------

  /** `unescapeText` of the calendar package: one pass over `\n`, `\N`, `\,`, `\;` and `\\`. */
  function ICalUnescape(s: Str): Str {
    if s == [] then []
    else if s[0] == BACKSLASH && |s| > 1 && (s[1] == LOWER_N || s[1] == UPPER_N) then
      [LF] + ICalUnescape(s[2..])
    else if s[0] == BACKSLASH && |s| > 1 && (s[1] == COMMA || s[1] == SEMICOLON || s[1] == BACKSLASH) then
      [s[1]] + ICalUnescape(s[2..])
    else [s[0]] + ICalUnescape(s[1..])
  }

  /** Calendar text comes back for every input, up to line endings becoming LF. */
  lemma {:induction false} ICalTextRoundTrip(s: Str)
    ensures ICalUnescape(ICalEscape(s)) == Normalize(s)
  {
    ICalEscapeIsOnePass(s);
    UnescapeEscaped(s);
  }

  lemma {:induction false} UnescapeEscaped(s: Str)
    ensures ICalUnescape(Escaped(s)) == Normalize(s)
  {
    if s != [] {
      var n := if StartsWithCrlf(s) then 2 else 1;
      var head := if StartsWithCrlf(s) then [BACKSLASH, LOWER_N] else EscapeUnit(s[0]);
      var rest := Escaped(s[n..]);
      UnescapeEscaped(s[n..]);
      assert (head + rest)[|head|..] == rest;
      if StartsWithCrlf(s) { assert s[0] == CR; }
    }
  }

  // ---------- the contact parser ----------

  predicate IsN(u: Unit) {
    u == LOWER_N || u == UPPER_N
  }

  /** The replacement of `\n` and `\N` by LF. */
  function ReplaceEscapedN(s: Str): Str {
    if s == [] then []
    else if s[0] == BACKSLASH && |s| > 1 && IsN(s[1]) then [LF] + ReplaceEscapedN(s[2..])
    else [s[0]] + ReplaceEscapedN(s[1..])
  }

  /** `unescapeText` of the contact package: four replacements, one after the other. */
  function VCardUnescape(s: Str): Str {
    var newlines := ReplaceEscapedN(s);
    var commas := ReplaceAll(newlines, [BACKSLASH, COMMA], [COMMA]);
    var semicolons := ReplaceAll(commas, [BACKSLASH, SEMICOLON], [SEMICOLON]);
    ReplaceAll(semicolons, [BACKSLASH, BACKSLASH], [BACKSLASH])
  }

  /** Text in which every n or N right after a backslash has become a line feed. */
  function Garbled(t: Str): Str {
    if t == [] then []
    else if t[0] == BACKSLASH && |t| > 1 && IsN(t[1]) then [BACKSLASH, LF] + Garbled(t[2..])
    else [t[0]] + Garbled(t[1..])
  }

  /** Somewhere a backslash is directly followed by n or N. */
  predicate HasBackslashN(t: Str) {
    |t| >= 2 && ((t[0] == BACKSLASH && IsN(t[1])) || HasBackslashN(t[1..]))
  }

  // What is left of an escaped text after the first one, two or three passes:
  // the pass count decides which of LF, comma and semicolon are plain again.
  function Remainder(t: Str, pass: nat): (r: Str)
    ensures r != [] && pass < 2 ==> r[0] != COMMA
    ensures r != [] && pass < 3 ==> r[0] != SEMICOLON
  {
    if t == [] then [] else Chunk(t, pass) + Remainder(t[ChunkLength(t)..], pass)
  }

  /** How many units are escaped together: two for a backslash before an n. */
  function ChunkLength(t: Str): nat
    requires t != []
  {
    if t[0] == BACKSLASH && |t| > 1 && IsN(t[1]) then 2 else 1
  }

  function Chunk(t: Str, pass: nat): (h: Str)
    requires t != []
    ensures 1 <= |h| <= 2
  {
    if ChunkLength(t) == 2 then [BACKSLASH, LF]
    else if t[0] == LF || (pass >= 2 && t[0] == COMMA) || (pass >= 3 && t[0] == SEMICOLON) then [t[0]]
    else EscapeUnit(t[0])
  }

  lemma ReplacePairStep(s: Str, a: Unit, b: Unit, rep: Str)
    requires s != []
    ensures ReplaceAll(s, [a, b], rep) ==
      if |s| > 1 && s[0] == a && s[1] == b then rep + ReplaceAll(s[2..], [a, b], rep)
      else [s[0]] + ReplaceAll(s[1..], [a, b], rep)
  {
    if |s| == 1 {
      assert s == [s[0]] + s[1..];
    } else {
      assert [a, b] <= s <==> s[0] == a && s[1] == b;
    }
  }

  lemma {:induction false} FirstPass(t: Str)
    requires CR !in t
    ensures ReplaceEscapedN(Escaped(t)) == Remainder(t, 1)
  {
    if t != [] {
      assert t[0] in t;
      var rest := Escaped(t[1..]);
      FirstPass(t[1..]);
      if t[0] == BACKSLASH {
        if |t| > 1 && IsN(t[1]) {
          assert rest == [t[1]] + Escaped(t[2..]) by { assert t[1..][1..] == t[2..]; }
          FirstPass(t[2..]);
          BackslashesThenN(t[1], Escaped(t[2..]));
        } else {
          assert rest != [] ==> rest[0] == EscapeUnit(t[1])[0];
          TwoPlain(BACKSLASH, rest);
        }
      } else if t[0] == LF {
        assert ([BACKSLASH, LOWER_N] + rest)[2..] == rest;
      } else if |EscapeUnit(t[0])| == 2 {
        TwoPlain(t[0], rest);
      } else {
        assert ([t[0]] + rest)[1..] == rest;
      }
    }
  }

  lemma PlainStep(u: Unit, rest: Str)
    requires u != BACKSLASH || rest == [] || !IsN(rest[0])
    ensures ReplaceEscapedN([u] + rest) == [u] + ReplaceEscapedN(rest)
  {
    assert ([u] + rest)[1..] == rest;
  }

  /** Two backslashes before an n: the second one makes it a line feed. */
  lemma BackslashesThenN(n: Unit, rest: Str)
    requires IsN(n)
    ensures ReplaceEscapedN([BACKSLASH, BACKSLASH] + ([n] + rest)) == [BACKSLASH, LF] + ReplaceEscapedN(rest)
  {
    var inner := [BACKSLASH, n] + rest;
    assert inner[2..] == rest;
    ConcatAssociates([BACKSLASH], [n], rest);
    assert [BACKSLASH] + [n] == [BACKSLASH, n] && [BACKSLASH] + [BACKSLASH] == [BACKSLASH, BACKSLASH];
    assert [BACKSLASH] + [LF] == [BACKSLASH, LF];
    ConcatAssociates([BACKSLASH], [BACKSLASH], [n] + rest);
    PlainStep(BACKSLASH, inner);
    ConcatAssociates([BACKSLASH], [LF], ReplaceEscapedN(rest));
  }

  /** An escaped unit that the first replacement leaves alone. */
  lemma TwoPlain(u: Unit, rest: Str)
    requires !IsN(u) && (u == BACKSLASH ==> rest == [] || !IsN(rest[0]))
    ensures ReplaceEscapedN([BACKSLASH, u] + rest) == [BACKSLASH, u] + ReplaceEscapedN(rest)
  {
    PlainStep(u, rest);
    ConcatAssociates([BACKSLASH], [u], rest);
    PlainStep(BACKSLASH, [u] + rest);
    ConcatAssociates([BACKSLASH], [u], ReplaceEscapedN(rest));
  }

  lemma {:induction false} LaterPass(t: Str, pass: nat, c: Unit)
    requires CR !in t
    requires (pass == 1 && c == COMMA) || (pass == 2 && c == SEMICOLON)
    ensures ReplaceAll(Remainder(t, pass), [BACKSLASH, c], [c]) == Remainder(t, pass + 1)
  {
    if t != [] {
      assert t[0] in t;
      LaterPass(t[ChunkLength(t)..], pass, c);
      ChunkPass(Chunk(t, pass), Remainder(t[ChunkLength(t)..], pass), c);
      NextChunk(t, pass, c);
    }
  }

  lemma NextChunk(t: Str, pass: nat, c: Unit)
    requires t != [] && t[0] != CR
    requires (pass == 1 && c == COMMA) || (pass == 2 && c == SEMICOLON)
    ensures Chunk(t, pass + 1) == if Chunk(t, pass) == [BACKSLASH, c] then [c] else Chunk(t, pass)
  {
  }

  /** A chunk before text that does not start with the unit: only the chunk itself can be the pair. */
  lemma ChunkPass(h: Str, rest: Str, c: Unit)
    requires 1 <= |h| <= 2 && c != BACKSLASH && (rest != [] ==> rest[0] != c)
    ensures ReplaceAll(h + rest, [BACKSLASH, c], [c])
         == (if h == [BACKSLASH, c] then [c] else h) + ReplaceAll(rest, [BACKSLASH, c], [c])
  {
    var r := h + rest;
    ReplacePairStep(r, BACKSLASH, c, [c]);
    if |h| == 1 {
      assert r[1..] == rest;
    } else {
      assert r[2..] == rest && r[1..] == [h[1]] + rest && r[1..][1..] == rest;
      ReplacePairStep(r[1..], BACKSLASH, c, [c]);
      ConcatAssociates([h[0]], [h[1]], ReplaceAll(rest, [BACKSLASH, c], [c]));
    }
  }

  lemma {:induction false} LastPass(t: Str)
    requires CR !in t
    ensures ReplaceAll(Remainder(t, 3), [BACKSLASH, BACKSLASH], [BACKSLASH]) == Garbled(t)
  {
    if t != [] {
      assert t[0] in t;
      LastPass(t[ChunkLength(t)..]);
      LastChunk(Chunk(t, 3), Remainder(t[ChunkLength(t)..], 3));
    }
  }

  lemma LastChunk(h: Str, rest: Str)
    requires h == [BACKSLASH, BACKSLASH] || h == [BACKSLASH, LF] || (|h| == 1 && h[0] != BACKSLASH)
    ensures ReplaceAll(h + rest, [BACKSLASH, BACKSLASH], [BACKSLASH])
         == (if h == [BACKSLASH, BACKSLASH] then [BACKSLASH] else h)
           + ReplaceAll(rest, [BACKSLASH, BACKSLASH], [BACKSLASH])
  {
    var r := h + rest;
    ReplacePairStep(r, BACKSLASH, BACKSLASH, [BACKSLASH]);
    if |h| == 1 {
      assert r[1..] == rest;
    } else {
      assert r[2..] == rest && r[1..] == [h[1]] + rest && r[1..][1..] == rest;
      ReplacePairStep(r[1..], BACKSLASH, BACKSLASH, [BACKSLASH]);
      ConcatAssociates([h[0]], [h[1]], ReplaceAll(rest, [BACKSLASH, BACKSLASH], [BACKSLASH]));
    }
  }

  /** What a contact text turns into when it is printed and read back. */
  lemma VCardTextReadBack(s: Str)
    ensures VCardUnescape(VCardEscape(s)) == Garbled(Normalize(s))
  {
    var t := Normalize(s);
    VCardEscapeIsOnePass(s);
    VCardEscapeIsOnePass(t);
    NormalizeIdentity(t);
    FirstPass(t);
    LaterPass(t, 1, COMMA);
    LaterPass(t, 2, SEMICOLON);
    LastPass(t);
  }

  lemma {:induction false} GarbledIdentity(t: Str)
    ensures Garbled(t) == t <==> !HasBackslashN(t)
  {
    if t != [] {
      if t[0] == BACKSLASH && |t| > 1 && IsN(t[1]) {
        assert Garbled(t)[1] == LF;
      } else {
        GarbledIdentity(t[1..]);
        assert Garbled(t)[1..] == Garbled(t[1..]);
        assert t == [t[0]] + t[1..];
      }
    }
  }

  lemma {:induction false} NormalizeKeepsBackslashN(s: Str)
    ensures HasBackslashN(Normalize(s)) <==> HasBackslashN(s)
  {
    if s != [] {
      if StartsWithCrlf(s) {
        NormalizeKeepsBackslashN(s[2..]);
        assert s[1..][1..] == s[2..];
        assert Normalize(s)[1..] == Normalize(s[2..]);
      } else {
        NormalizeKeepsBackslashN(s[1..]);
        assert Normalize(s)[1..] == Normalize(s[1..]);
      }
    }
  }

  /**
   Contact text survives a round trip (line endings becoming LF) exactly when
   no backslash is directly followed by n or N. Backslashes elsewhere are fine.
   */
  lemma VCardTextRoundTrip(s: Str)
    ensures VCardUnescape(VCardEscape(s)) == Normalize(s) <==> !HasBackslashN(s)
  {
    VCardTextReadBack(s);
    GarbledIdentity(Normalize(s));
    NormalizeKeepsBackslashN(s);
  }

  // ---------- text that is unescaped though it was never escaped ----------

  predicate HasPair(s: Str, a: Unit, b: Unit) {
    |s| >= 2 && ((s[0] == a && s[1] == b) || HasPair(s[1..], a, b))
  }

  /** A backslash directly followed by n, N, a comma, a semicolon or a backslash. */
  predicate HasEscape(s: Str) {
    HasBackslashN(s) || HasPair(s, BACKSLASH, COMMA) || HasPair(s, BACKSLASH, SEMICOLON)
      || HasPair(s, BACKSLASH, BACKSLASH)
  }

  lemma {:induction false} EscapedNShrinks(s: Str)
    ensures if HasBackslashN(s) then |ReplaceEscapedN(s)| < |s| else ReplaceEscapedN(s) == s
    ensures |ReplaceEscapedN(s)| <= |s|
  {
    if s != [] {
      EscapedNShrinks(s[1..]);
      HeadAndTail(s);
      if s[0] == BACKSLASH && |s| > 1 && IsN(s[1]) {
        EscapedNShrinks(s[2..]);
      }
    }
  }

  lemma {:induction false} PairShrinks(s: Str, a: Unit, b: Unit, c: Unit)
    ensures var r := ReplaceAll(s, [a, b], [c]);
      |r| <= |s| && if HasPair(s, a, b) then |r| < |s| else r == s
    decreases |s|
  {
    if s != [] {
      ReplacePairStep(s, a, b, [c]);
      PairShrinks(s[1..], a, b, c);
      HeadAndTail(s);
      if |s| > 1 && s[0] == a && s[1] == b {
        PairShrinks(s[2..], a, b, c);
      }
    }
  }

  /** Unescaping leaves a text as it is exactly when there is nothing to unescape in it. */
  lemma UnescapeExactly(s: Str)
    ensures VCardUnescape(s) == s <==> !HasEscape(s)
    ensures |VCardUnescape(s)| <= |s|
  {
    var newlines := ReplaceEscapedN(s);
    var commas := ReplaceAll(newlines, [BACKSLASH, COMMA], [COMMA]);
    var semicolons := ReplaceAll(commas, [BACKSLASH, SEMICOLON], [SEMICOLON]);
    EscapedNShrinks(s);
    PairShrinks(newlines, BACKSLASH, COMMA, COMMA);
    PairShrinks(commas, BACKSLASH, SEMICOLON, SEMICOLON);
    PairShrinks(semicolons, BACKSLASH, BACKSLASH, BACKSLASH);
  }

  lemma {:induction false} GarbledKeeps(t: Str)
    requires CR !in t
    ensures |Garbled(t)| == |t| && CR !in Garbled(t)
  {
    if t != [] {
      GarbledKeeps(t[if t[0] == BACKSLASH && |t| > 1 && IsN(t[1]) then 2 else 1..]);
    }
  }

  lemma {:induction false} NormalizeShrinks(s: Str)
    ensures |Normalize(s)| <= |s|
  {
    if s != [] {
      NormalizeShrinks(s[if StartsWithCrlf(s) then 2 else 1..]);
    }
  }

  /** A text comes back unchanged exactly without carriage returns and without a backslash before n. */
  lemma ReadBackExactly(s: Str)
    ensures var r := VCardUnescape(VCardEscape(s));
      |r| <= |s| && (r == s <==> CR !in s && !HasBackslashN(s))
  {
    VCardTextReadBack(s);
    GarbledKeeps(Normalize(s));
    NormalizeShrinks(s);
    if CR !in s {
      NormalizeIdentity(s);
      GarbledIdentity(s);
    }
  }

  // ---------- splitting at unescaped separators ----------

  /** The parts of `value` from here on, after reading `current` of the first one. */
  function SplitFrom(value: Str, separator: Unit, current: Str, escaped: bool): (parts: seq<Str>)
    ensures parts != []
  {
    if value == [] then [current]
    else if !escaped && value[0] == separator then [current] + SplitFrom(value[1..], separator, [], false)
    else SplitFrom(value[1..], separator, current + [value[0]], !escaped && value[0] == BACKSLASH)
  }

  /** `splitEscaped`: cut at every separator that no backslash escapes. */
  method SplitEscaped(value: Str, separator: Unit) returns (result: seq<Str>)
    ensures result == SplitFrom(value, separator, [], false)
  {
    result := [];
    var current: Str := [];
    var escaped := false;
    for i := 0 to |value|
      invariant result + SplitFrom(value[i..], separator, current, escaped) == SplitFrom(value, separator, [], false)
    {
      var character := value[i];
      assert value[i..][1..] == value[i + 1..];
      if !escaped && character == separator {
        result := result + [current];
        current := [];
      } else {
        current := current + [character];
        escaped := !escaped && character == BACKSLASH;
        if character != BACKSLASH {
          escaped := false;
        }
      }
    }
    result := result + [current];
  }

  lemma SplitSkipsUnit(u: Unit, rest: Str, separator: Unit, current: Str)
    requires u != separator && u != BACKSLASH
    ensures SplitFrom([u] + rest, separator, current, false) == SplitFrom(rest, separator, current + [u], false)
  {
    assert ([u] + rest)[1..] == rest;
  }

  lemma SplitSkipsPair(v: Unit, rest: Str, separator: Unit, current: Str)
    requires separator != BACKSLASH
    ensures SplitFrom([BACKSLASH, v] + rest, separator, current, false)
         == SplitFrom(rest, separator, current + [BACKSLASH, v], false)
  {
    assert ([BACKSLASH, v] + rest)[1..] == [v] + rest;
    assert ([v] + rest)[1..] == rest;
    assert current + [BACKSLASH] + [v] == current + [BACKSLASH, v];
  }

  /** An escaped component contains no cut, whatever text it was made from. */
  lemma {:induction false} SplitSkipsEscaped(s: Str, rest: Str, separator: Unit, current: Str)
    requires separator == SEMICOLON || separator == COMMA
    ensures SplitFrom(Escaped(s) + rest, separator, current, false)
         == SplitFrom(rest, separator, current + Escaped(s), false)
  {
    if s == [] {
      assert Escaped(s) + rest == rest;
      assert current + Escaped(s) == current;
    } else {
      var n := if StartsWithCrlf(s) then 2 else 1;
      var e := if StartsWithCrlf(s) then [BACKSLASH, LOWER_N] else EscapeUnit(s[0]);
      var more := Escaped(s[n..]);
      SplitSkipsEscaped(s[n..], rest, separator, current + e);
      if |e| == 2 {
        SplitSkipsPair(e[1], more + rest, separator, current);
      } else {
        SplitSkipsUnit(e[0], more + rest, separator, current);
      }
      ConcatAssociates(e, more, rest);
      ConcatAssociates(current, e, more);
    }
  }

  function MapEscaped(texts: seq<Str>): (r: seq<Str>)
    ensures |r| == |texts|
    ensures forall i | 0 <= i < |texts| :: r[i] == VCardEscape(texts[i])
  {
    seq(|texts|, i requires 0 <= i < |texts| => VCardEscape(texts[i]))
  }

  /**
   Components that are escaped and joined with a separator are found again,
   exactly and in order, whatever separators and backslashes they contain.
   */
  lemma {:induction false} SplitInvertsJoin(texts: seq<Str>, separator: Unit)
    requires texts != []
    requires separator == SEMICOLON || separator == COMMA
    ensures SplitFrom(Join(MapEscaped(texts), [separator]), separator, [], false) == MapEscaped(texts)
  {
    var parts := MapEscaped(texts);
    VCardEscapeIsOnePass(texts[0]);
    if |texts| == 1 {
      SplitWhole(texts[0], separator);
      assert parts == [parts[0]];
    } else {
      SplitInvertsJoin(texts[1..], separator);
      EscapedTail(texts);
      SplitAtSeparator(texts[0], Join(parts[1..], [separator]), separator);
      HeadAndTail(parts);
    }
  }

  lemma EscapedTail(texts: seq<Str>)
    requires texts != []
    ensures MapEscaped(texts[1..]) == MapEscaped(texts)[1..]
  {
  }

  lemma SplitWhole(s: Str, separator: Unit)
    requires separator == SEMICOLON || separator == COMMA
    ensures SplitFrom(Escaped(s), separator, [], false) == [Escaped(s)]
  {
    SplitSkipsEscaped(s, [], separator, []);
    assert Escaped(s) + [] == Escaped(s) && [] + Escaped(s) == Escaped(s);
  }

  lemma SplitAtSeparator(s: Str, rest: Str, separator: Unit)
    requires separator == SEMICOLON || separator == COMMA
    ensures SplitFrom(Escaped(s) + [separator] + rest, separator, [], false)
         == [Escaped(s)] + SplitFrom(rest, separator, [], false)
  {
    var tail := [separator] + rest;
    SplitSkipsEscaped(s, tail, separator, []);
    ConcatAssociates(Escaped(s), [separator], rest);
    assert [] + Escaped(s) == Escaped(s);
    assert tail[1..] == rest;
  }

  // ---------- splitting text that was joined without escaping ----------

  function NextEscaped(u: Unit, escaped: bool): bool {
    !escaped && u == BACKSLASH
  }

  /** A scan of the text meets no separator that cuts it. */
  predicate Uncut(s: Str, separator: Unit, escaped: bool) {
    s == [] || ((escaped || s[0] != separator) && Uncut(s[1..], separator, NextEscaped(s[0], escaped)))
  }

  /** Whether the scan ends behind a backslash that escapes what follows. */
  predicate EndsEscaped(s: Str, escaped: bool) {
    if s == [] then escaped else EndsEscaped(s[1..], NextEscaped(s[0], escaped))
  }

  predicate Separable(parts: seq<Str>, separator: Unit) {
    forall i | 0 <= i < |parts| :: Uncut(parts[i], separator, false)
      && (i < |parts| - 1 ==> !EndsEscaped(parts[i], false))
  }

  lemma {:induction false} ScanSnoc(s: Str, u: Unit, separator: Unit, escaped: bool)
    ensures Uncut(s + [u], separator, escaped)
      <==> Uncut(s, separator, escaped) && (EndsEscaped(s, escaped) || u != separator)
    ensures EndsEscaped(s + [u], escaped) <==> NextEscaped(u, EndsEscaped(s, escaped))
  {
    if s == [] {
      assert s + [u] == [u] && [u][1..] == [];
    } else {
      ScanSnoc(s[1..], u, separator, NextEscaped(s[0], escaped));
      TailOfConcat(s, [u]);
    }
  }

  lemma {:induction false} SplitUncut(s: Str, rest: Str, separator: Unit, current: Str, escaped: bool)
    requires Uncut(s, separator, escaped)
    ensures SplitFrom(s + rest, separator, current, escaped)
      == SplitFrom(rest, separator, current + s, EndsEscaped(s, escaped))
    decreases |s|
  {
    if s == [] {
      assert s + rest == rest && current + s == current;
    } else {
      SplitUncut(s[1..], rest, separator, current + [s[0]], NextEscaped(s[0], escaped));
      TailOfConcat(s, rest);
      HeadAndTail(s);
      ConcatAssociates(current, [s[0]], s[1..]);
    }
  }

  lemma {:induction false} SplitSeparable(parts: seq<Str>, separator: Unit)
    requires parts != [] && Separable(parts, separator)
    ensures SplitFrom(Join(parts, [separator]), separator, [], false) == parts
  {
    if |parts| == 1 {
      SplitUncut(parts[0], [], separator, [], false);
      assert parts[0] + [] == parts[0] && [] + parts[0] == parts[0];
    } else {
      var rest := Join(parts[1..], [separator]);
      SplitSeparable(parts[1..], separator);
      SplitUncut(parts[0], [separator] + rest, separator, [], false);
      ConcatAssociates(parts[0], [separator], rest);
      assert [] + parts[0] == parts[0] && ([separator] + rest)[1..] == rest;
      HeadAndTail(parts);
    }
  }

  /** The pieces cannot be cut again, and joined they are the text. */
  lemma {:induction false} PiecesSeparable(value: Str, separator: Unit, current: Str)
    requires Uncut(current, separator, false)
    ensures var parts := SplitFrom(value, separator, current, EndsEscaped(current, false));
      Separable(parts, separator) && Join(parts, [separator]) == current + value
    decreases |value|
  {
    if value == [] {
      assert current + value == current;
    } else if !EndsEscaped(current, false) && value[0] == separator {
      PiecesSeparable(value[1..], separator, []);
      HeadAndTail(value);
      PieceBefore(current, SplitFrom(value[1..], separator, [], false), separator);
      assert [] + value[1..] == value[1..];
      ConcatAssociates(current, [separator], value[1..]);
    } else {
      ScanSnoc(current, value[0], separator, false);
      PiecesSeparable(value[1..], separator, current + [value[0]]);
      HeadAndTail(value);
      ConcatAssociates(current, [value[0]], value[1..]);
    }
  }

  lemma PieceBefore(piece: Str, parts: seq<Str>, separator: Unit)
    requires parts != [] && Separable(parts, separator) && Uncut(piece, separator, false) && !EndsEscaped(piece, false)
    ensures Separable([piece] + parts, separator)
    ensures Join([piece] + parts, [separator]) == piece + [separator] + Join(parts, [separator])
  {
    var all := [piece] + parts;
    assert all[1..] == parts;
    forall i | 0 <= i < |all|
      ensures Uncut(all[i], separator, false) && (i < |all| - 1 ==> !EndsEscaped(all[i], false)) {
      assert i > 0 ==> all[i] == parts[i - 1];
    }
  }

  /** A text is split into given parts exactly when they join to it and none can be cut or swallows a separator. */
  lemma SplitExactly(value: Str, separator: Unit, parts: seq<Str>)
    ensures SplitFrom(value, separator, [], false) == parts
       <==> parts != [] && Separable(parts, separator) && Join(parts, [separator]) == value
  {
    PiecesSeparable(value, separator, []);
    assert [] + value == value;
    if parts != [] && Separable(parts, separator) {
      SplitSeparable(parts, separator);
    }
  }
}
