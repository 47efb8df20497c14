/**
 Finding delimiters in content lines: the first colon outside double quotes, and
 plain property names, which contain no delimiter and are told apart by their
 length, first and last character.
 */
module QuotedScan {
  import opened JsString
  import opened Results

  /** Position of the first `separator` that is not inside double quotes. */
  function UnquotedIndex(s: Str, separator: Unit, quoted: bool): (r: Option<nat>)
    ensures r.Some? ==> r.value < |s| && s[r.value] == separator
  {
    if s == [] then None
    else
      var q := if s[0] == DQUOTE then !quoted else quoted;
      if !q && s[0] == separator then Some(0)
      else match UnquotedIndex(s[1..], separator, q)
           case None => None
           case Some(k) => Some(k + 1)
  }

  /** Whether a scan that entered `s` in state `quoted` leaves it inside quotes. */
  function QuotedAfter(s: Str, quoted: bool): bool {
    if s == [] then quoted else QuotedAfter(s[1..], if s[0] == DQUOTE then !quoted else quoted)
  }

  /** No `separator` outside quotes, and every quote that opens is closed. */
  predicate Closed(s: Str, separator: Unit) {
    UnquotedIndex(s, separator, false).None? && !QuotedAfter(s, false)
  }

  lemma {:induction false} IndexSkips(a: Str, b: Str, separator: Unit, quoted: bool)
    requires UnquotedIndex(a, separator, quoted).None?
    ensures UnquotedIndex(a + b, separator, quoted) ==
      match UnquotedIndex(b, separator, QuotedAfter(a, quoted))
      case None => None
      case Some(k) => Some(|a| + k)
    ensures QuotedAfter(a + b, quoted) == QuotedAfter(b, QuotedAfter(a, quoted))
  {
    if a == [] {
      assert a + b == b;
    } else {
      var after := if a[0] == DQUOTE then !quoted else quoted;
      assert UnquotedIndex(a[1..], separator, after).None?;
      IndexSkips(a[1..], b, separator, after);
      TailOfConcat(a, b);
    }
  }

  lemma ClosedConcat(a: Str, b: Str, separator: Unit)
    requires Closed(a, separator) && Closed(b, separator)
    ensures Closed(a + b, separator)
  {
    IndexSkips(a, b, separator, false);
  }

  lemma {:induction false} PlainClosed(s: Str, separator: Unit)
    requires DQUOTE !in s && separator !in s
    ensures Closed(s, separator)
  {
    if s != [] {
      assert s[0] in s;
      PlainClosed(s[1..], separator);
    }
  }

  lemma {:induction false} InsideQuotes(s: Str, separator: Unit)
    requires DQUOTE !in s
    ensures UnquotedIndex(s, separator, true).None? && QuotedAfter(s, true)
  {
    if s != [] {
      assert s[0] in s;
      InsideQuotes(s[1..], separator);
    }
  }

  /** `indexOf` of one unit. */
  function IndexOf(s: Str, u: Unit): (r: Option<nat>)
    ensures r.Some? ==> r.value < |s| && s[r.value] == u
    ensures r.None? ==> u !in s
  {
    if s == [] then None
    else if s[0] == u then Some(0)
    else match IndexOf(s[1..], u)
         case None => None
         case Some(k) => Some(k + 1)
  }

  lemma {:induction false} IndexOfSkips(a: Str, u: Unit, b: Str)
    requires u !in a
    ensures IndexOf(a + [u] + b, u) == Some(|a|)
  {
    var s := a + [u] + b;
    if a != [] {
      assert a[0] in a;
      IndexOfSkips(a[1..], u, b);
      assert s[1..] == a[1..] + [u] + b;
    }
  }

  predicate PlainWord(s: Str) {
    s != [] && forall i | 0 <= i < |s| :: 65 <= s[i] <= 90 || s[i] == 45
  }

  lemma PlainWordIsUpper(s: Str)
    requires PlainWord(s)
    ensures Upper(s) == s
    ensures DQUOTE !in s && COLON !in s && SEMICOLON !in s && EQUALS !in s && CARET !in s && OneLine(s)
  {
  }

  // ---------- names given as literals ----------

  predicate IsWord(s: string) {
    s != "" && forall i | 0 <= i < |s| :: 'A' <= s[i] <= 'Z' || s[i] == '-'
  }

  function Signature(s: string): (int, char, char)
    requires s != ""
  {
    (|s|, s[0], s[|s| - 1])
  }

  lemma LiteralsDiffer(s: string, t: string)
    requires IsWord(s) && IsWord(t) && Signature(s) != Signature(t)
    ensures L(s) != L(t)
  {
    if |s| == |t| {
      assert L(s)[0] != L(t)[0] || L(s)[|s| - 1] != L(t)[|s| - 1];
    }
  }

  // ---------- what the scan finds ----------

  function Quotes(s: Str): nat {
    if s == [] then 0 else (if s[0] == DQUOTE then 1 else 0) + Quotes(s[1..])
  }

  /** The separator stands here, behind an even number of quotes. */
  predicate FreeAt(s: Str, separator: Unit, quoted: bool, i: int) {
    0 <= i < |s| && s[i] == separator && (Quotes(s[..i]) % 2 == 1 <==> quoted)
  }

  lemma FreeInTail(s: Str, separator: Unit, quoted: bool, i: int)
    requires s != [] && separator != DQUOTE && i > 0
    ensures FreeAt(s, separator, quoted, i)
      <==> FreeAt(s[1..], separator, if s[0] == DQUOTE then !quoted else quoted, i - 1)
  {
    if i < |s| {
      assert s[..i][1..] == s[1..][..i - 1] && s[..i][0] == s[0];
    }
  }

  /** The scan finds the first separator outside quotes, or none where there is none. */
  lemma {:induction false} IndexExactly(s: Str, separator: Unit, quoted: bool)
    requires separator != DQUOTE
    ensures match UnquotedIndex(s, separator, quoted)
      case None => forall i :: !FreeAt(s, separator, quoted, i)
      case Some(k) => FreeAt(s, separator, quoted, k) && forall i | i < k :: !FreeAt(s, separator, quoted, i)
  {
    if s != [] {
      var after := if s[0] == DQUOTE then !quoted else quoted;
      IndexExactly(s[1..], separator, after);
      forall i | i > 0 ensures FreeAt(s, separator, quoted, i) <==> FreeAt(s[1..], separator, after, i - 1) {
        FreeInTail(s, separator, quoted, i);
      }
      assert s[..0] == [];
    }
  }
}
