/**
 JavaScript strings as sequences of UTF-16 code units, with the handful of
 string operations the printers and parsers are written in.

 Working on code units rather than on characters matters: a surrogate pair is
 two units, a string may hold a surrogate without its partner, and both fold
 algorithms count UTF-8 octets across those units.
 */
module JsString {
  type Unit = u: int | 0 <= u < 0x10000
  type Str = seq<Unit>

  const TAB: Unit := 9
  const LF: Unit := 10
  const CR: Unit := 13
  const SP: Unit := 32
  const DQUOTE: Unit := 34
  const PERCENT: Unit := 37
  const APOSTROPHE: Unit := 39
  const STAR: Unit := 42
  const COMMA: Unit := 44
  const SLASH: Unit := 47
  const COLON: Unit := 58
  const SEMICOLON: Unit := 59
  const EQUALS: Unit := 61
  const QUESTION: Unit := 63
  const UPPER_N: Unit := 78
  const LBRACKET: Unit := 91
  const BACKSLASH: Unit := 92
  const RBRACKET: Unit := 93
  const CARET: Unit := 94
  const LOWER_N: Unit := 110
  const LINE_SEPARATOR: Unit := 0x2028
  const PARAGRAPH_SEPARATOR: Unit := 0x2029

  const CRLF: Str := [CR, LF]

  /** A string literal of the program; all of them are ASCII. */
  function L(s: string): (t: Str)
    ensures |t| == |s|
    ensures forall i | 0 <= i < |s| && s[i] < 128 as char :: t[i] == s[i] as int
  {
    seq(|s|, i requires 0 <= i < |s| => if s[i] < 128 as char then s[i] as int else 0)
  }

  // ---------- replaceAll ----------

  /** `s.replaceAll(pat, rep)` for a string pattern: leftmost, non-overlapping. */
  function ReplaceAll(s: Str, pat: Str, rep: Str): Str
    requires |pat| > 0
  {
    if |s| < |pat| then s
    else if pat <= s then rep + ReplaceAll(s[|pat|..], pat, rep)
    else [s[0]] + ReplaceAll(s[1..], pat, rep)
  }

  predicate StartsWithCrlf(s: Str)
    ensures StartsWithCrlf(s) <==> CRLF <= s
  {
    |s| >= 2 && s[0] == CR && s[1] == LF
  }

  lemma UnitPrefix(s: Str, c: Unit)
    ensures [c] <= s <==> s != [] && s[0] == c
  {
  }

  /** One step of replacing a one-unit pattern. */
  lemma ReplaceUnitStep(s: Str, c: Unit, rep: Str)
    requires s != []
    ensures ReplaceAll(s, [c], rep) == (if s[0] == c then rep else [s[0]]) + ReplaceAll(s[1..], [c], rep)
  {
    UnitPrefix(s, c);
  }

  /** Replacing a one-unit pattern works unit by unit, so it distributes over concatenation. */
  lemma {:induction false} ReplaceUnitConcat(a: Str, b: Str, c: Unit, rep: Str)
    ensures ReplaceAll(a + b, [c], rep) == ReplaceAll(a, [c], rep) + ReplaceAll(b, [c], rep)
  {
    if a == [] {
      assert a + b == b;
    } else {
      var head := if a[0] == c then rep else [a[0]];
      ReplaceUnitConcat(a[1..], b, c, rep);
      ReplaceUnitStep(a, c, rep);
      ReplaceUnitStep(a + b, c, rep);
      assert (a + b)[1..] == a[1..] + b;
      ConcatAssociates(head, ReplaceAll(a[1..], [c], rep), ReplaceAll(b, [c], rep));
    }
  }

  lemma ConcatAssociates<T>(a: seq<T>, b: seq<T>, c: seq<T>)
    ensures a + (b + c) == (a + b) + c
  {
  }

  lemma LeftNested<T>(a: seq<T>, b: seq<T>, c: seq<T>, d: seq<T>)
    ensures a + (b + (c + d)) == a + b + c + d
  {
  }

  lemma HeadAndTail<T>(a: seq<T>)
    requires a != []
    ensures [a[0]] + a[1..] == a
  {
  }

  lemma TailOfConcat<T>(a: seq<T>, b: seq<T>)
    requires a != []
    ensures (a + b)[0] == a[0] && (a + b)[1..] == a[1..] + b
  {
  }

  /** Replacing a unit that does not occur changes nothing. */
  lemma {:induction false} ReplaceAbsentUnit(a: Str, c: Unit, rep: Str)
    requires c !in a
    ensures ReplaceAll(a, [c], rep) == a
  {
    if a != [] {
      assert a[0] in a;
      ReplaceAbsentUnit(a[1..], c, rep);
      assert a == [a[0]] + a[1..];
    }
  }

  /** A line ending in a text field: what both printers turn CRLF, CR and LF into. */
  function Normalize(s: Str): (t: Str)
    ensures CR !in t
    ensures s != [] ==> t != []
  {
    if s == [] then []
    else if StartsWithCrlf(s) then [LF] + Normalize(s[2..])
    else [if s[0] == CR then LF else s[0]] + Normalize(s[1..])
  }

  /** Text without a carriage return is already normalised. */
  lemma {:induction false} NormalizeIdentity(s: Str)
    requires CR !in s
    ensures Normalize(s) == s
  {
    if s != [] {
      assert s[0] in s;
      NormalizeIdentity(s[1..]);
      assert s == [s[0]] + s[1..];
    }
  }

  // ---------- join and membership ----------

  function Join(parts: seq<Str>, sep: Str): Str {
    if parts == [] then []
    else if |parts| == 1 then parts[0]
    else parts[0] + sep + Join(parts[1..], sep)
  }

  function Concat(parts: seq<Str>): Str {
    if parts == [] then [] else parts[0] + Concat(parts[1..])
  }

  /** Neither CR nor LF occurs: the string fits on one content line. */
  predicate OneLine(s: Str) {
    CR !in s && LF !in s
  }

  predicate AllOneLine(lines: seq<Str>) {
    forall i | 0 <= i < |lines| :: OneLine(lines[i])
  }

  lemma AllOneLineConcat(a: seq<Str>, b: seq<Str>)
    requires AllOneLine(a) && AllOneLine(b)
    ensures AllOneLine(a + b)
  {
  }

  lemma {:induction false} JoinOneLine(parts: seq<Str>, separator: Unit)
    requires AllOneLine(parts) && separator != CR && separator != LF
    ensures OneLine(Join(parts, [separator]))
  {
    if |parts| > 1 {
      JoinOneLine(parts[1..], separator);
    }
  }

  /** `s.split(separator)` for a one-unit separator. */
  function Split(s: Str, separator: Unit): (parts: seq<Str>)
    ensures parts != []
  {
    if s == [] then [[]]
    else if s[0] == separator then [[]] + Split(s[1..], separator)
    else
      var rest := Split(s[1..], separator);
      [[s[0]] + rest[0]] + rest[1..]
  }

  /** The units JavaScript's `\s` matches. */
  predicate IsSpace(u: Unit) {
    9 <= u <= 13 || u == 32 || u == 0xA0 || u == 0x1680 || 0x2000 <= u <= 0x200A
    || u == 0x2028 || u == 0x2029 || u == 0x202F || u == 0x205F || u == 0x3000 || u == 0xFEFF
  }

  function TrimStart(s: Str): Str {
    if s != [] && IsSpace(s[0]) then TrimStart(s[1..]) else s
  }

  function TrimEnd(s: Str): Str {
    if s != [] && IsSpace(s[|s| - 1]) then TrimEnd(s[..|s| - 1]) else s
  }

  // ---------- case mapping (ASCII) ----------

  function UpperUnit(u: Unit): Unit {
    if 97 <= u <= 122 then u - 32 else u
  }

  function LowerUnit(u: Unit): Unit {
    if 65 <= u <= 90 then u + 32 else u
  }

  function Upper(s: Str): (t: Str)
    ensures |t| == |s|
  {
    seq(|s|, i requires 0 <= i < |s| => UpperUnit(s[i]))
  }

  function Lower(s: Str): (t: Str)
    ensures |t| == |s|
  {
    seq(|s|, i requires 0 <= i < |s| => LowerUnit(s[i]))
  }

  // ---------- UTF-8 length ----------

  predicate IsHigh(u: Unit) {
    0xD800 <= u <= 0xDBFF
  }

  predicate IsLow(u: Unit) {
    0xDC00 <= u <= 0xDFFF
  }

  /** Octets of one unit on its own; an unpaired surrogate is written as U+FFFD. */
  function UnitOctets(u: Unit): (n: nat)
    ensures 1 <= n <= 3
  {
    if u < 0x80 then 1 else if u < 0x800 then 2 else 3
  }

  /** Units of the code point a string starts with. */
  function PointLength(s: Str): (n: nat)
    requires s != []
    ensures 1 <= n <= 2 && n <= |s|
  {
    if |s| >= 2 && IsHigh(s[0]) && IsLow(s[1]) then 2 else 1
  }

  /** `Buffer.byteLength(s, "utf8")`. */
  function Octets(s: Str): (n: nat)
    ensures n <= 3 * |s|
    ensures s != [] ==> n >= 1
  {
    if s == [] then 0
    else if PointLength(s) == 2 then 4 + Octets(s[2..])
    else UnitOctets(s[0]) + Octets(s[1..])
  }

  /** A surrogate pair would be cut between these two strings. */
  predicate SplitsPair(a: Str, b: Str) {
    a != [] && b != [] && IsHigh(a[|a| - 1]) && IsLow(b[0])
  }

  /** Octet counts add up wherever no surrogate pair straddles the seam. */
  lemma {:induction false} OctetsConcat(a: Str, b: Str)
    requires !SplitsPair(a, b)
    ensures Octets(a + b) == Octets(a) + Octets(b)
  {
    if a == [] {
      assert a + b == b;
    } else {
      var n := PointLength(a);
      assert PointLength(a + b) == n;
      OctetsConcat(a[n..], b);
      assert (a + b)[n..] == a[n..] + b;
    }
  }
}
