/**
 `JSON.stringify` of a list of strings, which both the resumption key and the
 instance identifier are made from, and why distinct lists never collide.
 */
module JsonKey {
  import opened JsString
  import opened Results

  // ---------- writing ----------

  function HexDigit(n: nat): (u: Unit)
    requires n < 16
  {
    if n < 10 then 48 + n else 87 + n
  }

  /** `\uXXXX` in lower case. */
  function HexEscape(u: Unit): (e: Str)
    ensures |e| == 6
  {
    [BACKSLASH, 117, HexDigit(u / 4096), HexDigit(u / 256 % 16), HexDigit(u / 16 % 16), HexDigit(u % 16)]
  }

  /** A unit that is not part of a surrogate pair. */
  function QuoteUnit(u: Unit): (e: Str)
    ensures e != []
  {
    if u == 8 then [BACKSLASH, 98]
    else if u == 9 then [BACKSLASH, 116]
    else if u == 10 then [BACKSLASH, 110]
    else if u == 12 then [BACKSLASH, 102]
    else if u == 13 then [BACKSLASH, 114]
    else if u == DQUOTE || u == BACKSLASH then [BACKSLASH, u]
    else if u < 32 || IsHigh(u) || IsLow(u) then HexEscape(u)
    else [u]
  }

  function QuoteBody(s: Str): Str {
    if s == [] then []
    else if PointLength(s) == 2 then s[..2] + QuoteBody(s[2..])
    else QuoteUnit(s[0]) + QuoteBody(s[1..])
  }

  function Quote(s: Str): Str {
    [DQUOTE] + QuoteBody(s) + [DQUOTE]
  }

  /** The inside of the array. */
  function Items(parts: seq<Str>): Str {
    if parts == [] then []
    else if |parts| == 1 then Quote(parts[0])
    else Quote(parts[0]) + [COMMA] + Items(parts[1..])
  }

  function Stringify(parts: seq<Str>): Str {
    [LBRACKET] + Items(parts) + [RBRACKET]
  }

  // ---------- reading back ----------

  function HexValue(u: Unit): (n: nat)
    ensures n < 16
  {
    if 48 <= u <= 57 then u - 48 else if 97 <= u <= 102 then u - 87 else 0
  }

  /** The unit an escape stands for, and the escape's length. */
  function ReadEscape(t: Str): (r: (Unit, nat))
    requires t != [] && t[0] == BACKSLASH
    ensures 1 <= r.1 <= |t|
  {
    if |t| < 2 then (BACKSLASH, 1)
    else if t[1] == 98 then (8, 2)
    else if t[1] == 116 then (9, 2)
    else if t[1] == 110 then (10, 2)
    else if t[1] == 102 then (12, 2)
    else if t[1] == 114 then (13, 2)
    else if t[1] == 117 && |t| >= 6 then
      (HexValue(t[2]) * 4096 + HexValue(t[3]) * 256 + HexValue(t[4]) * 16 + HexValue(t[5]), 6)
    else (t[1], 2)
  }

  /** The string up to the closing quote, and what follows the quote. */
  function ReadBody(t: Str): (Str, Str) {
    if t == [] then ([], [])
    else if t[0] == DQUOTE then ([], t[1..])
    else if t[0] == BACKSLASH then
      var (u, n) := ReadEscape(t);
      var (value, rest) := ReadBody(t[n..]);
      ([u] + value, rest)
    else
      var (value, rest) := ReadBody(t[1..]);
      ([t[0]] + value, rest)
  }

  lemma HexDigits(u: Unit)
    ensures u == (u / 4096) * 4096 + (u / 256 % 16) * 256 + (u / 16 % 16) * 16 + u % 16
  {
    assert u / 256 == (u / 4096) * 16 + u / 256 % 16;
    assert u / 16 == (u / 256) * 16 + u / 16 % 16;
  }

  lemma ReadUnit(u: Unit, rest: Str)
    ensures ReadBody(QuoteUnit(u) + rest) == ([u] + ReadBody(rest).0, ReadBody(rest).1)
  {
    var e := QuoteUnit(u);
    var t := e + rest;
    assert t[|e|..] == rest;
    if |e| == 6 {
      HexDigits(u);
      assert ReadEscape(t) == (u, 6);
    } else if |e| == 2 {
      assert ReadEscape(t) == (u, 2);
    }
  }

  lemma {:induction false} ReadInvertsQuote(s: Str, rest: Str)
    ensures ReadBody(QuoteBody(s) + ([DQUOTE] + rest)) == (s, rest)
  {
    var tail := [DQUOTE] + rest;
    if s == [] {
      assert QuoteBody(s) + tail == tail && tail[1..] == rest;
    } else if PointLength(s) == 2 {
      ReadInvertsQuote(s[2..], rest);
      var more := QuoteBody(s[2..]) + tail;
      ConcatAssociates(s[..2], QuoteBody(s[2..]), tail);
      var t := s[..2] + more;
      assert t[1..] == [s[1]] + more && t[1..][1..] == more;
      assert s == [s[0]] + ([s[1]] + s[2..]);
    } else {
      ReadInvertsQuote(s[1..], rest);
      ConcatAssociates(QuoteUnit(s[0]), QuoteBody(s[1..]), tail);
      ReadUnit(s[0], QuoteBody(s[1..]) + tail);
      HeadAndTail(s);
    }
  }

  lemma ReadQuoted(s: Str, rest: Str)
    ensures ReadBody((Quote(s) + rest)[1..]) == (s, rest)
  {
    ReadInvertsQuote(s, rest);
    assert (Quote(s) + rest)[1..] == QuoteBody(s) + ([DQUOTE] + rest);
  }

  /** What follows the first string of a list, closing bracket included. */
  function AfterFirst(parts: seq<Str>): Str
    requires parts != []
  {
    if |parts| == 1 then [RBRACKET] else [COMMA] + (Items(parts[1..]) + [RBRACKET])
  }

  lemma ItemsStart(parts: seq<Str>)
    requires parts != []
    ensures Items(parts) + [RBRACKET] == Quote(parts[0]) + AfterFirst(parts)
  {
  }

  lemma {:induction false} ItemsInjective(a: seq<Str>, b: seq<Str>)
    requires a != [] && b != []
    requires Items(a) + [RBRACKET] == Items(b) + [RBRACKET]
    ensures a == b
    decreases |a|
  {
    ItemsStart(a);
    ItemsStart(b);
    ReadQuoted(a[0], AfterFirst(a));
    ReadQuoted(b[0], AfterFirst(b));
    assert a[0] == b[0] && AfterFirst(a) == AfterFirst(b);
    assert AfterFirst(a)[0] == AfterFirst(b)[0];
    if |a| > 1 {
      assert AfterFirst(a)[1..] == Items(a[1..]) + [RBRACKET];
      assert AfterFirst(b)[1..] == Items(b[1..]) + [RBRACKET];
      ItemsInjective(a[1..], b[1..]);
      HeadAndTail(a);
      HeadAndTail(b);
    } else {
      assert a == [a[0]] && b == [b[0]];
    }
  }

  /** Distinct lists of strings have distinct JSON texts. */
  lemma StringifyInjective(a: seq<Str>, b: seq<Str>)
    requires a != [] && b != []
    ensures Stringify(a) == Stringify(b) <==> a == b
  {
    if Stringify(a) == Stringify(b) {
      WithinBrackets(a);
      WithinBrackets(b);
      ItemsInjective(a, b);
    }
  }

  lemma WithinBrackets(parts: seq<Str>)
    ensures Stringify(parts)[1..] == Items(parts) + [RBRACKET]
  {
  }

  // ---------- well-formed text ----------

  /** No control characters, and surrogates only in pairs. */
  predicate Clean(s: Str) {
    if s == [] then true
    else if PointLength(s) == 2 then Clean(s[2..])
    else s[0] >= 32 && !IsHigh(s[0]) && !IsLow(s[0]) && Clean(s[1..])
  }

  lemma {:induction false} CleanConcat(a: Str, b: Str)
    requires Clean(a) && Clean(b)
    ensures Clean(a + b)
  {
    if a == [] {
      assert a + b == b;
    } else {
      var n := PointLength(a);
      CleanConcat(a[n..], b);
      assert (a + b)[n..] == a[n..] + b;
    }
  }

  lemma UnitsClean(s: Str)
    requires forall i | 0 <= i < |s| :: 32 <= s[i] < 0xD800
    ensures Clean(s)
  {
  }

  lemma {:induction false} QuotedClean(s: Str)
    ensures Clean(QuoteBody(s))
  {
    if s != [] {
      var n := PointLength(s);
      QuotedClean(s[n..]);
      if n == 2 {
        assert s[..2][2..] == [];
        CleanConcat(s[..2], QuoteBody(s[2..]));
      } else {
        if 0xD800 > s[0] || |QuoteUnit(s[0])| > 1 {
          UnitsClean(QuoteUnit(s[0]));
        } else {
          assert QuoteUnit(s[0])[1..] == [];
        }
        CleanConcat(QuoteUnit(s[0]), QuoteBody(s[1..]));
      }
    }
  }

  /** The text of a key is well-formed whatever the strings in it (ECMA-262, section 25.5.2.3). */
  lemma {:induction false} StringifyClean(parts: seq<Str>)
    ensures Clean(Items(parts)) && Clean(Stringify(parts))
  {
    if parts != [] {
      QuotedClean(parts[0]);
      UnitsClean([DQUOTE]);
      CleanConcat([DQUOTE], QuoteBody(parts[0]));
      CleanConcat([DQUOTE] + QuoteBody(parts[0]), [DQUOTE]);
      if |parts| > 1 {
        StringifyClean(parts[1..]);
        UnitsClean([COMMA]);
        CleanConcat(Quote(parts[0]), [COMMA]);
        CleanConcat(Quote(parts[0]) + [COMMA], Items(parts[1..]));
      }
    }
    UnitsClean([LBRACKET]);
    UnitsClean([RBRACKET]);
    CleanConcat([LBRACKET], Items(parts));
    CleanConcat([LBRACKET] + Items(parts), [RBRACKET]);
  }

  // ---------- the two keys ----------

  /** `buildResumptionKey` */
  function ResumptionKey(platform: Str, actor: Str, ip: Str): Str {
    Stringify([platform, actor, ip])
  }

  /** The text `getPlatformId` hashes for an actor; the digest itself is left out. */
  function InstanceId(platform: Str, actor: Str, scope: Str): Str {
    Stringify([platform, actor, scope])
  }

  /** Neither key can be shared by two different triples. */
  lemma KeysInjective(p: Str, a: Str, x: Str, p': Str, a': Str, x': Str)
    ensures ResumptionKey(p, a, x) == ResumptionKey(p', a', x') <==> (p == p' && a == a' && x == x')
    ensures InstanceId(p, a, x) == InstanceId(p', a', x') <==> (p == p' && a == a' && x == x')
  {
    StringifyInjective([p, a, x], [p', a', x']);
    var s, t := [p, a, x], [p', a', x'];
    assert s == t ==> s[0] == t[0] && s[1] == t[1] && s[2] == t[2];
  }

  /** `scopeKey`: the plain joined key of the pending scopes. */
  function ScopeKey(platform: Str, actor: Str): Str {
    platform + [COLON] + actor
  }

  /** The joined key is ambiguous as soon as a platform name may hold a colon, and only then. */
  lemma ScopeKeyInjective(p: Str, a: Str, p': Str, a': Str)
    requires COLON !in p && COLON !in p'
    ensures ScopeKey(p, a) == ScopeKey(p', a') <==> (p == p' && a == a')
  {
    var k, k' := ScopeKey(p, a), ScopeKey(p', a');
    assert k[|p|] == COLON && k'[|p'|] == COLON;
    assert |p| < |p'| ==> k'[|p|] == p'[|p|] && p'[|p|] in p';
    assert |p'| < |p| ==> k[|p'|] == p[|p'|] && p[|p'|] in p;
    assert k[..|p|] == p && k'[..|p'|] == p' && k[|p| + 1..] == a && k'[|p'| + 1..] == a';
  }

  lemma ScopeKeyAmbiguous(p: Str, q: Str, a: Str)
    ensures ScopeKey(p + [COLON] + q, a) == ScopeKey(p, q + [COLON] + a)
    ensures p + [COLON] + q != p
  {
  }
}
