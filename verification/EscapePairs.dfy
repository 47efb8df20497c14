/**
 What the unescape functions read, whoever wrote the text: a unit that is
 escaped stands as a pair, every other unit for itself.
 */
module EscapePairs {
  import opened JsString
  import TextEscape
  import ICalLine

  /** What each second unit of a pair stands for. */
  type Table = map<Unit, Unit>

  const NEWLINES: Table := map[LOWER_N := LF, UPPER_N := LF]
  const CALENDAR: Table :=
    map[LOWER_N := LF, UPPER_N := LF, COMMA := COMMA, SEMICOLON := SEMICOLON, BACKSLASH := BACKSLASH]
  const PARAMETER: Table := map[LOWER_N := LF, UPPER_N := LF, CARET := CARET, APOSTROPHE := DQUOTE]

  /** `piece`, followed by `rest`, stands for `u`: a pair of the table, or the unit itself. */
  predicate StandsFor(piece: Str, u: Unit, rest: Str, escape: Unit, table: Table) {
    || (|piece| == 2 && piece[0] == escape && piece[1] in table && table[piece[1]] == u)
    || (piece == [u] && (u == escape ==> rest == [] || rest[0] !in table))
  }

  predicate Written(pieces: seq<Str>, text: Str, escape: Unit, table: Table) {
    |pieces| == |text|
    && forall i | 0 <= i < |text| :: StandsFor(pieces[i], text[i], Concat(pieces[i + 1..]), escape, table)
  }

  /** `s` is a way of writing `text`. */
  ghost predicate Writes(s: Str, text: Str, escape: Unit, table: Table) {
    exists pieces :: Written(pieces, text, escape, table) && Concat(pieces) == s
  }

  function Decode(s: Str, escape: Unit, table: Table): Str {
    if s == [] then []
    else if s[0] == escape && |s| > 1 && s[1] in table then [table[s[1]]] + Decode(s[2..], escape, table)
    else [s[0]] + Decode(s[1..], escape, table)
  }

  lemma {:induction false} DecodesPieces(pieces: seq<Str>, text: Str, escape: Unit, table: Table)
    requires Written(pieces, text, escape, table)
    ensures Decode(Concat(pieces), escape, table) == text
  {
    if text != [] {
      var piece, rest := pieces[0], Concat(pieces[1..]);
      assert StandsFor(piece, text[0], rest, escape, table);
      forall i | 0 <= i < |text[1..]|
        ensures StandsFor(pieces[1..][i], text[1..][i], Concat(pieces[1..][i + 1..]), escape, table) {
        assert pieces[1..][i + 1..] == pieces[i + 2..];
        assert StandsFor(pieces[i + 1], text[i + 1], Concat(pieces[i + 2..]), escape, table);
      }
      DecodesPieces(pieces[1..], text[1..], escape, table);
      assert (piece + rest)[|piece|..] == rest;
      HeadAndTail(text);
    }
  }

  lemma {:induction false} PiecesOf(s: Str, escape: Unit, table: Table) returns (pieces: seq<Str>)
    ensures Written(pieces, Decode(s, escape, table), escape, table) && Concat(pieces) == s
  {
    if s == [] {
      pieces := [];
    } else {
      var text := Decode(s, escape, table);
      var n := if s[0] == escape && |s| > 1 && s[1] in table then 2 else 1;
      var more := PiecesOf(s[n..], escape, table);
      pieces := [s[..n]] + more;
      assert pieces[1..] == more && s[..n] + s[n..] == s;
      forall i | 0 <= i < |text| ensures StandsFor(pieces[i], text[i], Concat(pieces[i + 1..]), escape, table) {
        if i > 0 {
          assert pieces[i + 1..] == more[i..];
          assert StandsFor(more[i - 1], text[1..][i - 1], Concat(more[i..]), escape, table);
        }
      }
    }
  }

  lemma DecodesExactly(s: Str, text: Str, escape: Unit, table: Table)
    ensures Decode(s, escape, table) == text <==> Writes(s, text, escape, table)
  {
    var pieces := PiecesOf(s, escape, table);
    if Writes(s, text, escape, table) {
      var other :| Written(other, text, escape, table) && Concat(other) == s;
      DecodesPieces(other, text, escape, table);
    }
  }

  // ---------- the calendar parser ----------

  lemma {:induction false} CalendarDecodes(s: Str)
    ensures TextEscape.ICalUnescape(s) == Decode(s, BACKSLASH, CALENDAR)
  {
    if s != [] {
      CalendarDecodes(s[1..]);
      if |s| > 1 {
        CalendarDecodes(s[2..]);
      }
    }
  }

  /** Calendar text is read as `text` exactly when it writes it, each LF as `\n` or `\N`. */
  lemma CalendarTextExactly(s: Str, text: Str)
    ensures TextEscape.ICalUnescape(s) == text <==> Writes(s, text, BACKSLASH, CALENDAR)
  {
    CalendarDecodes(s);
    DecodesExactly(s, text, BACKSLASH, CALENDAR);
  }

  lemma {:induction false} ParameterDecodes(s: Str)
    ensures ICalLine.CaretDecode(s) == Decode(s, CARET, PARAMETER)
  {
    if s != [] {
      ParameterDecodes(s[1..]);
      if |s| > 1 {
        ParameterDecodes(s[2..]);
      }
    }
  }

  /** A parameter value, quoted or bare, is read as `text` exactly when it writes it with caret pairs. */
  lemma ParameterTextExactly(s: Str, text: Str)
    requires DQUOTE !in s
    ensures ICalLine.DecodeParameter(s) == text <==> Writes(s, text, CARET, PARAMETER)
    ensures ICalLine.DecodeParameter([DQUOTE] + s + [DQUOTE]) == text <==> Writes(s, text, CARET, PARAMETER)
  {
    var quoted := [DQUOTE] + s + [DQUOTE];
    assert quoted[1..|quoted| - 1] == s;
    ParameterDecodes(s);
    DecodesExactly(s, text, CARET, PARAMETER);
  }

  // ---------- the contact parser ----------

  lemma {:induction false} NewlinesDecode(s: Str)
    ensures TextEscape.ReplaceEscapedN(s) == Decode(s, BACKSLASH, NEWLINES)
  {
    if s != [] {
      NewlinesDecode(s[1..]);
      if |s| > 1 {
        NewlinesDecode(s[2..]);
      }
    }
  }

  lemma {:induction false} PairDecodes(s: Str, u: Unit)
    ensures ReplaceAll(s, [BACKSLASH, u], [u]) == Decode(s, BACKSLASH, map[u := u])
  {
    if s != [] {
      TextEscape.ReplacePairStep(s, BACKSLASH, u, [u]);
      PairDecodes(s[1..], u);
      if |s| > 1 {
        PairDecodes(s[2..], u);
      }
    }
  }

  /** The contact parser undoes the pairs of one kind after the other: line feeds, commas, semicolons, backslashes. */
  lemma ContactTextExactly(s: Str, text: Str)
    ensures TextEscape.VCardUnescape(s) == text
       <==> exists a, b, c :: Writes(s, a, BACKSLASH, NEWLINES) && Writes(a, b, BACKSLASH, map[COMMA := COMMA])
                           && Writes(b, c, BACKSLASH, map[SEMICOLON := SEMICOLON])
                           && Writes(c, text, BACKSLASH, map[BACKSLASH := BACKSLASH])
  {
    var a := Decode(s, BACKSLASH, NEWLINES);
    var b := Decode(a, BACKSLASH, map[COMMA := COMMA]);
    var c := Decode(b, BACKSLASH, map[SEMICOLON := SEMICOLON]);
    NewlinesDecode(s);
    PairDecodes(a, COMMA);
    PairDecodes(b, SEMICOLON);
    PairDecodes(c, BACKSLASH);
    DecodesExactly(s, a, BACKSLASH, NEWLINES);
    DecodesExactly(a, b, BACKSLASH, map[COMMA := COMMA]);
    DecodesExactly(b, c, BACKSLASH, map[SEMICOLON := SEMICOLON]);
    DecodesExactly(c, text, BACKSLASH, map[BACKSLASH := BACKSLASH]);
    if x, y, z :| Writes(s, x, BACKSLASH, NEWLINES) && Writes(x, y, BACKSLASH, map[COMMA := COMMA])
                  && Writes(y, z, BACKSLASH, map[SEMICOLON := SEMICOLON])
                  && Writes(z, text, BACKSLASH, map[BACKSLASH := BACKSLASH]) {
      DecodesExactly(s, x, BACKSLASH, NEWLINES);
      DecodesExactly(x, y, BACKSLASH, map[COMMA := COMMA]);
      DecodesExactly(y, z, BACKSLASH, map[SEMICOLON := SEMICOLON]);
    }
  }
}
