/**
 The offset changes of a time zone, found by weekly sampling and binary search
 (packages/platform-caldav/src/timezone.ts). Instants are milliseconds since
 the epoch and always whole seconds; the zone is an arbitrary function.
 */
module TimeZone {
  import opened JsString
  import opened Results
  import opened JsMap

  /** What `localParts` reports about an instant. */
  datatype Local = Local(offset: int, name: Str)
  type Zone = int -> Local

  datatype Transition = Transition(from: int, to: int, instant: int, name: Str)

  /** The content of a VTIMEZONE, without its text. */
  datatype Block = Steady(at: Local) | Changing(transitions: seq<Transition>)

  const MIN_YEAR := 1970
  const MAX_YEAR := 2100
  const MAX_CACHE_ENTRIES := 256

  predicate Whole(instant: int) {
    instant % 1000 == 0
  }

  /** The offset of this second differs from that of the second before. */
  predicate ChangeAt(zone: Zone, instant: int) {
    zone(instant - 1000).offset != zone(instant).offset
  }

  // ---------- the binary search ----------

  function Boundary(zone: Zone, low: int, high: int, was: int): (instant: int)
    requires Whole(low) && Whole(high) && low < high
    requires zone(low).offset == was && zone(high).offset != was
    ensures Whole(instant) && low < instant <= high
    ensures zone(instant - 1000).offset == was && zone(instant).offset != was
    decreases high - low
  {
    if high - low <= 1000 then high
    else
      var middle := Middle(low, high);
      if zone(middle).offset == was then Boundary(zone, middle, high, was) else Boundary(zone, low, middle, was)
  }

  /** Strictly between the two, or the search would not end. */
  function Middle(low: int, high: int): (middle: int)
    requires Whole(low) && Whole(high) && high - low > 1000
    ensures Whole(middle) && low < middle < high
  {
    MiddleSecond(low / 1000, high / 1000);
    (low + high) / 2000 * 1000
  }

  lemma MiddleSecond(l: int, h: int)
    requires h - l >= 2
    ensures (1000 * l + 1000 * h) / 2000 == (l + h) / 2 && l < (l + h) / 2 < h
  {
  }

  method FindBoundary(zone: Zone, first: int, last: int, was: int) returns (instant: int)
    requires Whole(first) && Whole(last) && first < last
    requires zone(first).offset == was && zone(last).offset != was
    ensures instant == Boundary(zone, first, last, was)
  {
    var low, high := first, last;
    while high - low > 1000
      invariant Whole(low) && Whole(high) && low < high
      invariant zone(low).offset == was && zone(high).offset != was
      invariant Boundary(zone, low, high, was) == Boundary(zone, first, last, was)
      decreases high - low
    {
      var middle := (low + high) / 2000 * 1000;
      assert middle == Middle(low, high);
      if zone(middle).offset == was {
        low := middle;
      } else {
        high := middle;
      }
    }
    return high;
  }

  // ---------- the samples ----------

  function Sample(start: int, k: int): (instant: int)
    ensures Whole(start) ==> Whole(instant)
  {
    assert Whole(start) ==> start + k * 604_800_000 == 1000 * (start / 1000 + k * 604_800);
    start + k * 604_800_000
  }

  lemma NextSample(start: int, k: int)
    ensures Sample(start, k + 1) == Sample(start, k) + 604_800_000
    ensures k >= 0 ==> start <= Sample(start, k)
  {
  }

  /** Only one sample is the last one before the end. */
  lemma SampleOnlyOnce(start: int, j: nat, k: nat, end: int)
    requires Sample(start, k) <= end < Sample(start, k + 1)
    ensures start <= end
    ensures Sample(start, j) <= end < Sample(start, j + 1) ==> j == k
  {
  }

  /** What one week contributes. */
  function Week(zone: Zone, low: int, high: int): seq<Transition>
    requires Whole(low) && Whole(high) && low < high
  {
    var was := zone(low).offset;
    if zone(high).offset == was then []
    else
      var instant := Boundary(zone, low, high, was);
      [Transition(was, zone(instant).offset, instant, zone(instant).name)]
  }

  function Transitions(zone: Zone, start: int, weeks: nat): seq<Transition>
    requires Whole(start)
  {
    if weeks == 0 then []
    else Transitions(zone, start, weeks - 1) + Week(zone, Sample(start, weeks - 1), Sample(start, weeks))
  }

  lemma NextTransitions(zone: Zone, start: int, weeks: nat)
    requires Whole(start)
    ensures Transitions(zone, start, weeks + 1)
         == Transitions(zone, start, weeks) + Week(zone, Sample(start, weeks), Sample(start, weeks + 1))
  {
  }

  /** The samples after the first one that do not lie beyond the end. */
  function Weeks(start: int, end: int): nat {
    if end < start then 0 else (end - start) / 604_800_000
  }

  predicate Recorded(ts: seq<Transition>, instant: int) {
    exists i | 0 <= i < |ts| :: ts[i].instant == instant
  }

  // ---------- every entry is a real change ----------

  /** The first second with a new offset. */
  predicate Genuine(zone: Zone, t: Transition) {
    && Whole(t.instant) && t.from != t.to
    && zone(t.instant - 1000).offset == t.from && zone(t.instant) == Local(t.to, t.name)
  }

  /** Real changes after `low` and up to `high`, in order. */
  predicate Sound(zone: Zone, low: int, high: int, ts: seq<Transition>) {
    && (forall i | 0 <= i < |ts| :: Genuine(zone, ts[i]) && low < ts[i].instant <= high)
    && (forall i, j | 0 <= i < j < |ts| :: ts[i].instant < ts[j].instant)
  }

  lemma WeekSound(zone: Zone, low: int, high: int)
    requires Whole(low) && Whole(high) && low < high
    ensures |Week(zone, low, high)| <= 1 && Sound(zone, low, high, Week(zone, low, high))
  {
  }

  lemma SoundConcat(zone: Zone, low: int, mid: int, high: int, a: seq<Transition>, b: seq<Transition>)
    requires low <= mid <= high && Sound(zone, low, mid, a) && Sound(zone, mid, high, b)
    ensures Sound(zone, low, high, a + b)
  {
  }

  /**
   Whatever the zone does: each recorded instant is the first second with its
   new offset, and the instants strictly increase within the sampled time.
   */
  lemma {:induction false} TransitionsSound(zone: Zone, start: int, weeks: nat)
    requires Whole(start)
    ensures Sound(zone, start, Sample(start, weeks), Transitions(zone, start, weeks))
  {
    if weeks > 0 {
      var low, high := Sample(start, weeks - 1), Sample(start, weeks);
      NextSample(start, weeks - 1);
      TransitionsSound(zone, start, weeks - 1);
      WeekSound(zone, low, high);
      SoundConcat(zone, start, low, high, Transitions(zone, start, weeks - 1), Week(zone, low, high));
    }
  }

  // ---------- when no change is missed ----------

  /** At most one second in the range brings a new offset. */
  ghost predicate OneChange(zone: Zone, low: int, high: int) {
    forall i, j | low < i <= high && low < j <= high && Whole(i) && Whole(j) && ChangeAt(zone, i)
      && ChangeAt(zone, j) :: i == j
  }

  ghost predicate Complete(zone: Zone, low: int, high: int, ts: seq<Transition>) {
    forall i | low < i <= high && Whole(i) :: ChangeAt(zone, i) <==> Recorded(ts, i)
  }

  lemma {:induction false} Unchanged(zone: Zone, low: int, high: int)
    requires Whole(low) && Whole(high) && low <= high
    requires forall i | low < i <= high && Whole(i) :: !ChangeAt(zone, i)
    ensures zone(high).offset == zone(low).offset
    decreases high - low
  {
    if low < high {
      assert !ChangeAt(zone, high);
      Unchanged(zone, low, high - 1000);
    }
  }

  /** One week is recorded completely exactly when it holds at most one change. */
  lemma WeekComplete(zone: Zone, low: int, high: int)
    requires Whole(low) && Whole(high) && low < high
    ensures Complete(zone, low, high, Week(zone, low, high)) <==> OneChange(zone, low, high)
  {
    var ts := Week(zone, low, high);
    if OneChange(zone, low, high) {
      if zone(high).offset == zone(low).offset {
        forall i | low < i <= high && Whole(i) ensures !ChangeAt(zone, i) {
          if ChangeAt(zone, i) {
            LoneChangeShows(zone, low, high, i);
          }
        }
      } else {
        assert ts[0].instant == Boundary(zone, low, high, zone(low).offset);
        assert ChangeAt(zone, ts[0].instant);
      }
    } else {
      var i, j :| low < i <= high && low < j <= high && Whole(i) && Whole(j)
        && ChangeAt(zone, i) && ChangeAt(zone, j) && i != j;
      assert !(Recorded(ts, i) && Recorded(ts, j));
    }
  }

  /** The only change of a range is seen by comparing the ends. */
  lemma LoneChangeShows(zone: Zone, low: int, high: int, i: int)
    requires Whole(low) && Whole(high) && low < i <= high && Whole(i)
    requires ChangeAt(zone, i) && OneChange(zone, low, high)
    ensures zone(low).offset == zone(i - 1000).offset && zone(high).offset == zone(i).offset
    ensures zone(high).offset != zone(low).offset
  {
    Unchanged(zone, low, i - 1000);
    Unchanged(zone, i, high);
  }

  lemma RecordedConcat(a: seq<Transition>, b: seq<Transition>, instant: int)
    ensures Recorded(a + b, instant) <==> Recorded(a, instant) || Recorded(b, instant)
  {
    if Recorded(a, instant) {
      var i :| 0 <= i < |a| && a[i].instant == instant;
      assert (a + b)[i].instant == instant;
    }
    if Recorded(b, instant) {
      var i :| 0 <= i < |b| && b[i].instant == instant;
      assert (a + b)[|a| + i].instant == instant;
    }
  }

  ghost predicate OneChangeAWeek(zone: Zone, start: int, weeks: nat) {
    forall k | 0 < k <= weeks :: OneChange(zone, Sample(start, k - 1), Sample(start, k))
  }

  /** An offset that lasts for one second within the week leaves no trace. */
  lemma TwoChangesMissed(low: int, blip: int)
    requires Whole(low) && Whole(blip) && low < blip < low + 604_800_000
    ensures var zone := (i: int) => Local(if i == blip then 3_600_000 else 0, []);
      && ChangeAt(zone, blip) && ChangeAt(zone, blip + 1000)
      && Week(zone, low, low + 604_800_000) == []
  {
  }

  lemma OneMoreWeek(zone: Zone, start: int, weeks: nat)
    requires weeks > 0
    ensures OneChangeAWeek(zone, start, weeks) <==>
      OneChangeAWeek(zone, start, weeks - 1) && OneChange(zone, Sample(start, weeks - 1), Sample(start, weeks))
  {
  }

  /**
   The recorded instants are all changes up to the last sample exactly when no
   week holds two changes.
   */
  lemma {:induction false} TransitionsComplete(zone: Zone, start: int, weeks: nat)
    requires Whole(start)
    ensures Complete(zone, start, Sample(start, weeks), Transitions(zone, start, weeks))
       <==> OneChangeAWeek(zone, start, weeks)
  {
    if weeks > 0 {
      var low, high := Sample(start, weeks - 1), Sample(start, weeks);
      var front, week := Transitions(zone, start, weeks - 1), Week(zone, low, high);
      TransitionsComplete(zone, start, weeks - 1);
      TransitionsSound(zone, start, weeks - 1);
      WeekComplete(zone, low, high);
      WeekSound(zone, low, high);
      forall i ensures Recorded(front + week, i) <==> Recorded(front, i) || Recorded(week, i) {
        RecordedConcat(front, week, i);
      }
      CompleteConcat(zone, start, low, high, front, week);
      OneMoreWeek(zone, start, weeks);
    }
  }

  lemma CompleteConcat(zone: Zone, start: int, low: int, high: int, front: seq<Transition>, week: seq<Transition>)
    requires start <= low < high
    requires Sound(zone, start, low, front) && Sound(zone, low, high, week)
    requires forall i :: Recorded(front + week, i) <==> Recorded(front, i) || Recorded(week, i)
    ensures Complete(zone, start, high, front + week)
      <==> Complete(zone, start, low, front) && Complete(zone, low, high, week)
  {
    assert forall i | i <= low :: !Recorded(week, i);
    assert forall i | i > low :: !Recorded(front, i);
    if Complete(zone, start, high, front + week) {
      forall i | start < i <= low && Whole(i) ensures ChangeAt(zone, i) <==> Recorded(front, i) {
        assert Recorded(front + week, i) <==> Recorded(front, i);
      }
      forall i | low < i <= high && Whole(i) ensures ChangeAt(zone, i) <==> Recorded(week, i) {
        assert Recorded(front + week, i) <==> Recorded(week, i);
      }
    }
  }

  /** With at most one change a week the offsets chain: each entry starts where the last one ended. */
  lemma {:induction false} TransitionsChain(zone: Zone, start: int, weeks: nat)
    requires Whole(start) && OneChangeAWeek(zone, start, weeks)
    ensures var ts := Transitions(zone, start, weeks);
      var last := zone(Sample(start, weeks)).offset;
      && (forall i | 0 < i < |ts| :: ts[i - 1].to == ts[i].from)
      && (if ts == [] then zone(start).offset == last
          else ts[0].from == zone(start).offset && ts[|ts| - 1].to == last)
  {
    if weeks > 0 {
      TransitionsChain(zone, start, weeks - 1);
      var low, high := Sample(start, weeks - 1), Sample(start, weeks);
      var week := Week(zone, low, high);
      assert OneChange(zone, low, high);
      if week != [] {
        LoneChangeShows(zone, low, high, week[0].instant);
      }
    }
  }

  // ---------- the years ----------

  /** The days from the epoch to the first of January. */
  function YearDay(year: int): int {
    365 * (year - 1970) + (year - 1969) / 4 - (year - 1901) / 100 + (year - 1601) / 400
  }

  /** `Date.UTC(year, 0, 1)` */
  function YearStart(year: int): (instant: int)
    ensures Whole(instant)
  {
    assert YearDay(year) * 86_400_000 == 1000 * (YearDay(year) * 86_400);
    YearDay(year) * 86_400_000
  }

  lemma DivisionGrows(a: int, n: int)
    requires n == 4 || n == 100 || n == 400
    ensures a / n <= (a + 1) / n <= a / n + 1
    ensures (a + 1) / n == a / n + if (a + 1) % n == 0 then 1 else 0
  {
  }

  lemma CenturiesAreEven(year: int)
    requires (year + 1 - 1901) % 100 == 0
    ensures (year + 1 - 1969) % 4 == 0
  {
    var q := (year - 1900) / 100;
    assert year - 1968 == 4 * (25 * q - 17);
  }

  lemma FourCenturies(year: int)
    requires (year + 1 - 1601) % 400 == 0
    ensures (year + 1 - 1901) % 100 == 0
  {
    var q := (year - 1600) / 400;
    assert year - 1900 == 100 * (4 * q - 3);
  }

  /** One unit more in the three leap-year quotients: at most one day more. */
  lemma LeapDay(year: int) returns (four: int, century: int, fourth: int)
    ensures (year + 1 - 1969) / 4 == (year - 1969) / 4 + four
    ensures (year + 1 - 1901) / 100 == (year - 1901) / 100 + century
    ensures (year + 1 - 1601) / 400 == (year - 1601) / 400 + fourth
    ensures four == if (year + 1 - 1969) % 4 == 0 then 1 else 0
    ensures century == if (year + 1 - 1901) % 100 == 0 then 1 else 0
    ensures fourth == if (year + 1 - 1601) % 400 == 0 then 1 else 0
    ensures century <= four && fourth <= century
  {
    DivisionGrows(year - 1969, 4);
    DivisionGrows(year - 1901, 100);
    DivisionGrows(year - 1601, 400);
    if (year + 1 - 1901) % 100 == 0 { CenturiesAreEven(year); }
    if (year + 1 - 1601) % 400 == 0 { FourCenturies(year); }
    four := if (year + 1 - 1969) % 4 == 0 then 1 else 0;
    century := if (year + 1 - 1901) % 100 == 0 then 1 else 0;
    fourth := if (year + 1 - 1601) % 400 == 0 then 1 else 0;
  }

  /** The Gregorian rule. */
  predicate Leap(year: int) {
    year % 4 == 0 && (year % 100 != 0 || year % 400 == 0)
  }

  lemma Residues(year: int)
    ensures (year + 1 - 1969) % 4 == 0 <==> year % 4 == 0
    ensures (year + 1 - 1901) % 100 == 0 <==> year % 100 == 0
    ensures (year + 1 - 1601) % 400 == 0 <==> year % 400 == 0
  {
    assert year - 1968 == 4 * (year / 4 - 492) + year % 4;
    assert year - 1900 == 100 * (year / 100 - 19) + year % 100;
    assert year - 1600 == 400 * (year / 400 - 4) + year % 400;
  }

  /** The days from one first of January to the next. */
  lemma NextYear(year: int)
    ensures YearDay(year + 1) == YearDay(year) + if Leap(year) then 366 else 365
  {
    var four, century, fourth := LeapDay(year);
    Residues(year);
  }

  /** The years count from the epoch, and each has 365 or 366 days of 86400 seconds. */
  lemma YearStartExactly(year: int)
    ensures YearStart(1970) == 0
    ensures YearStart(year + 1) == YearStart(year) + (if Leap(year) then 366 else 365) * 86_400_000
  {
    NextYear(year);
  }

  lemma {:induction false} YearsGrow(first: int, last: int)
    requires first < last
    ensures YearDay(last) >= YearDay(first) + 365
    decreases last - first
  {
    NextYear(last - 1);
    if first + 1 < last {
      YearsGrow(first, last - 1);
    }
  }

  lemma YearsOrdered(first: int, last: int)
    requires first <= last
    ensures YearStart(first) < YearStart(last + 1)
  {
    YearsGrow(first, last + 1);
  }

  lemma WeeksFit(start: int, end: int)
    requires start <= end
    ensures Sample(start, Weeks(start, end)) <= end < Sample(start, Weeks(start, end) + 1)
  {
  }

  function FirstYear(first: int): int {
    var low := if first > MIN_YEAR then first else MIN_YEAR;
    if low < MAX_YEAR then low else MAX_YEAR
  }

  function LastYear(first: int, last: int): int {
    var low := if last > FirstYear(first) then last else FirstYear(first);
    if low < MAX_YEAR then low else MAX_YEAR
  }

  function BlockBetween(zone: Zone, start: int, end: int): Block
    requires Whole(start)
  {
    var ts := Transitions(zone, start, Weeks(start, end));
    if ts == [] then Steady(zone(Sample(start, Weeks(start, end)))) else Changing(ts)
  }

  function BlockOf(zone: Zone, first: int, last: int): Block {
    BlockBetween(zone, YearStart(first), YearStart(last + 1))
  }

  /** The block for the years a caller asks for. */
  function BlockAsked(zone: Zone, firstYear: int, lastYear: int): Block {
    BlockOf(zone, FirstYear(firstYear), LastYear(firstYear, lastYear))
  }

  // ---------- the cache ----------

  function Decimal(n: nat): Str {
    if n < 10 then [48 + n] else Decimal(n / 10) + [48 + n % 10]
  }

  function DecimalValue(s: Str): int {
    if s == [] then 0 else DecimalValue(s[..|s| - 1]) * 10 + (s[|s| - 1] as int - 48)
  }

  lemma {:induction false} DecimalReads(n: nat)
    ensures DecimalValue(Decimal(n)) == n && COLON !in Decimal(n)
  {
    if n >= 10 {
      DecimalReads(n / 10);
      assert Decimal(n)[..|Decimal(n)| - 1] == Decimal(n / 10);
    } else {
      assert Decimal(n)[..0] == [];
    }
  }

  function CacheKey(timeZone: Str, first: nat, last: nat): Str {
    timeZone + ([COLON] + Decimal(first)) + ([COLON] + Decimal(last))
  }

  lemma ColonWithin(a: Str, b: Str, x: Str, y: Str)
    requires a + ([COLON] + x) == b + ([COLON] + y) && |a| < |b|
    ensures COLON in x
  {
    assert (a + ([COLON] + x))[|b|] == x[|b| - |a| - 1];
  }

  /** Only the part after the last colon can be what was appended. */
  lemma LastPart(a: Str, b: Str, x: Str, y: Str)
    requires COLON !in x && COLON !in y && a + ([COLON] + x) == b + ([COLON] + y)
    ensures a == b && x == y
  {
    if |a| < |b| {
      ColonWithin(a, b, x, y);
    } else if |b| < |a| {
      ColonWithin(b, a, y, x);
    } else {
      var whole := a + ([COLON] + x);
      assert a == whole[..|a|] && b == whole[..|b|] && x == whole[|a| + 1..] && y == whole[|b| + 1..];
    }
  }

  lemma CacheKeyInjective(t: Str, f: nat, l: nat, t': Str, f': nat, l': nat)
    ensures CacheKey(t, f, l) == CacheKey(t', f', l') <==> t == t' && f == f' && l == l'
  {
    if CacheKey(t, f, l) == CacheKey(t', f', l') {
      DecimalReads(f);
      DecimalReads(l);
      DecimalReads(f');
      DecimalReads(l');
      LastPart(t + ([COLON] + Decimal(f)), t' + ([COLON] + Decimal(f')), Decimal(l), Decimal(l'));
      LastPart(t, t', Decimal(f), Decimal(f'));
    }
  }

  // ---------- the sampling loop ----------

  /** The body of the sampling loop. */
  method AddWeek(transitions: seq<Transition>, zone: Zone, start: int, ghost k: nat, low: int, high: int,
      previous: Local, current: Local)
      returns (more: seq<Transition>)
    requires Whole(start) && current == zone(high)
    requires SampledTo(zone, start, k, transitions, low, high, previous)
    ensures SampledTo(zone, start, k + 1, more, high, high + 604_800_000, current)
  {
    NextSample(start, k);
    more := transitions;
    NextTransitions(zone, start, k);
    if current.offset != previous.offset {
      var found := FindBoundary(zone, low, high, previous.offset);
      var at := zone(found);
      more := more + [Transition(previous.offset, at.offset, found, at.name)];
    }
  }

  /** The loop's variables after some weeks. */
  ghost predicate SampledTo(zone: Zone, start: int, k: nat, transitions: seq<Transition>, low: int, high: int,
      previous: Local)
    requires Whole(start)
  {
    low == Sample(start, k) && high == low + 604_800_000 && previous == zone(low)
      && transitions == Transitions(zone, start, k)
  }

  /** The sampling loop, with the number of weeks it has taken. */
  method Scan(zone: Zone, start: int, end: int)
      returns (transitions: seq<Transition>, previous: Local, ghost weeks: nat)
    requires Whole(start) && start <= end
    ensures Sample(start, weeks) <= end < Sample(start, weeks + 1)
    ensures transitions == Transitions(zone, start, weeks) && previous == zone(Sample(start, weeks))
  {
    var previousInstant := start;
    previous := zone(previousInstant);
    transitions := [];
    var instant := start + 604_800_000;
    weeks := 0;
    while instant <= end
      invariant SampledTo(zone, start, weeks, transitions, previousInstant, instant, previous)
      invariant previousInstant <= end
      decreases end - instant
    {
      var current := zone(instant);
      transitions := AddWeek(transitions, zone, start, weeks, previousInstant, instant, previous, current);
      previousInstant := instant;
      previous := current;
      instant := instant + 604_800_000;
      weeks := weeks + 1;
    }
    NextSample(start, weeks);
  }

  method Compute(zone: Zone, start: int, end: int) returns (block: Block)
    requires Whole(start) && start <= end
    ensures block == BlockBetween(zone, start, end)
  {
    var transitions, previous, weeks := Scan(zone, start, end);
    WeeksFit(start, end);
    SampleOnlyOnce(start, weeks, Weeks(start, end), end);
    block := if transitions == [] then Steady(previous) else Changing(transitions);
  }

  /** A miss is appended, pushing out the oldest entry when the cache is full. */
  function Stored(cache: seq<Entry<Str, Block>>, key: Str, block: Block): seq<Entry<Str, Block>> {
    if Has(cache, key) then cache
    else (if |cache| >= MAX_CACHE_ENTRIES then cache[1..] else cache) + [Entry(key, block)]
  }

  class TimeZones {
    /** The runtime's tz data: an arbitrary zone for every name. */
    const zones: Str -> Zone
    var cache: seq<Entry<Str, Block>>

    ghost predicate EntryRight(e: Entry<Str, Block>) {
      exists timeZone, first: nat, last: nat ::
        e.key == CacheKey(timeZone, first, last) && e.value == BlockOf(zones(timeZone), first, last)
    }

    /** The cache is bounded and never disagrees with a fresh computation. */
    ghost predicate Valid()
      reads this
    {
      && |cache| <= MAX_CACHE_ENTRIES && Distinct(cache)
      && forall i | 0 <= i < |cache| :: EntryRight(cache[i])
    }

    constructor (zones: Str -> Zone)
      ensures Valid() && this.zones == zones && cache == []
    {
      this.zones := zones;
      cache := [];
    }

    method ComputeYears(zone: Zone, first: int, last: int) returns (block: Block)
      requires first <= last
      ensures block == BlockOf(zone, first, last)
    {
      var start, end := YearStart(first), YearStart(last + 1);
      YearsOrdered(first, last);
      block := Compute(zone, start, end);
    }

    /** `timeZoneLines`: cached, first in first out. */
    method TimeZoneLines(timeZone: Str, firstYear: int, lastYear: int) returns (block: Block)
      requires Valid()
      modifies this
      ensures Valid()
      ensures block == BlockAsked(zones(timeZone), firstYear, lastYear)
      ensures cache == Stored(old(cache), CacheKey(timeZone, FirstYear(firstYear), LastYear(firstYear, lastYear)),
        block)
    {
      var first, last := FirstYear(firstYear), LastYear(firstYear, lastYear);
      var key := CacheKey(timeZone, first, last);
      var existing := Get(cache, key);
      if existing.Some? {
        HitIsRight(timeZone, first, last, existing.value);
        return existing.value;
      }
      block := ComputeYears(zones(timeZone), first, last);
      StoredValid(timeZone, first, last, block);
      var kept := if |cache| >= MAX_CACHE_ENTRIES then cache[1..] else cache;
      cache := Set(kept, key, block);
    }

    lemma StoredValid(timeZone: Str, first: nat, last: nat, block: Block)
      requires Valid() && block == BlockOf(zones(timeZone), first, last)
      ensures
        var key := CacheKey(timeZone, first, last);
        var kept := if |cache| >= MAX_CACHE_ENTRIES then cache[1..] else cache;
        !Has(cache, key) ==>
          && Set(kept, key, block) == kept + [Entry(key, block)]
          && Distinct(Set(kept, key, block)) && |Set(kept, key, block)| <= MAX_CACHE_ENTRIES
          && forall i | 0 <= i < |Set(kept, key, block)| :: EntryRight(Set(kept, key, block)[i])
    {
      var key := CacheKey(timeZone, first, last);
      var kept := if |cache| >= MAX_CACHE_ENTRIES then cache[1..] else cache;
      if !Has(cache, key) {
        if |cache| >= MAX_CACHE_ENTRIES {
          DistinctTail(cache);
          assert forall i | 0 <= i < |cache| - 1 :: cache[1..][i] == cache[i + 1];
        }
        assert Get(kept, key).None?;
        SetAbsent(kept, key, block);
        SetDistinct(kept, key, block);
        assert EntryRight(Entry(key, block));
      }
    }

    lemma HitIsRight(timeZone: Str, first: nat, last: nat, block: Block)
      requires Valid() && Get(cache, CacheKey(timeZone, first, last)) == Some(block)
      ensures block == BlockOf(zones(timeZone), first, last)
    {
      var key := CacheKey(timeZone, first, last);
      var i :| 0 <= i < |cache| && cache[i] == Entry(key, block);
      var t, f: nat, l: nat :| cache[i].key == CacheKey(t, f, l) && cache[i].value == BlockOf(zones(t), f, l);
      CacheKeyInjective(timeZone, first, last, t, f, l);
    }
  }

  function Entries(block: Block): seq<Transition> {
    if block.Steady? then [] else block.transitions
  }

  /** The offset that entries give for an instant: that of the last one before it, at first the one they start from. */
  function OffsetAfter(ts: seq<Transition>, instant: int): int
    requires ts != []
  {
    var last := ts[|ts| - 1];
    if last.instant <= instant then last.to
    else if |ts| == 1 then last.from
    else OffsetAfter(ts[..|ts| - 1], instant)
  }

  /** The offset a reader of the block works with. */
  function OffsetIn(block: Block, instant: int): int
    requires block.Changing? ==> block.transitions != []
  {
    if block.Steady? then block.at.offset else OffsetAfter(block.transitions, instant)
  }

  /** The block gives the zone's offset at every second of the time. */
  ghost predicate Reproduces(zone: Zone, low: int, high: int, block: Block)
    requires block.Changing? ==> block.transitions != []
  {
    forall i | low <= i <= high && Whole(i) :: OffsetIn(block, i) == zone(i).offset
  }

  /** Which entry decides. */
  lemma {:induction false} DecidingEntry(ts: seq<Transition>, instant: int) returns (n: nat)
    requires ts != [] && forall i, j | 0 <= i < j < |ts| :: ts[i].instant < ts[j].instant
    ensures n <= |ts| && (forall i | 0 <= i < |ts| :: ts[i].instant <= instant <==> i < n)
    ensures OffsetAfter(ts, instant) == if n == 0 then ts[0].from else ts[n - 1].to
    decreases |ts|
  {
    if ts[|ts| - 1].instant <= instant {
      n := |ts|;
    } else if |ts| == 1 {
      n := 0;
    } else {
      n := DecidingEntry(ts[..|ts| - 1], instant);
    }
  }

  /** Complete entries reproduce the zone. */
  lemma CompleteReproduces(zone: Zone, low: int, high: int, ts: seq<Transition>, instant: int)
    requires Whole(low) && Whole(instant) && low <= instant <= high && ts != []
    requires Sound(zone, low, high, ts) && Complete(zone, low, high, ts)
    ensures OffsetAfter(ts, instant) == zone(instant).offset
  {
    var n := DecidingEntry(ts, instant);
    if n == 0 {
      BeforeFirst(zone, low, high, ts, instant);
    } else {
      SinceEntry(zone, low, high, ts, n, instant);
    }
  }

  lemma BeforeFirst(zone: Zone, low: int, high: int, ts: seq<Transition>, instant: int)
    requires Whole(low) && Whole(instant) && low <= instant <= high && ts != [] && instant < ts[0].instant
    requires Sound(zone, low, high, ts) && Complete(zone, low, high, ts)
    ensures zone(instant).offset == ts[0].from
  {
    var first := ts[0].instant;
    assert Genuine(zone, ts[0]);
    forall i | low < i <= first - 1000 && Whole(i) ensures !ChangeAt(zone, i) {
      assert !Recorded(ts, i);
    }
    Unchanged(zone, low, instant);
    Unchanged(zone, low, first - 1000);
  }

  lemma SinceEntry(zone: Zone, low: int, high: int, ts: seq<Transition>, n: nat, instant: int)
    requires Whole(low) && Whole(instant) && low <= instant <= high && 0 < n <= |ts|
    requires forall i | 0 <= i < |ts| :: ts[i].instant <= instant <==> i < n
    requires Sound(zone, low, high, ts) && Complete(zone, low, high, ts)
    ensures zone(instant).offset == ts[n - 1].to
  {
    var at := ts[n - 1].instant;
    assert Genuine(zone, ts[n - 1]);
    forall i | at < i <= instant && Whole(i) ensures !ChangeAt(zone, i) {
      assert !Recorded(ts, i);
    }
    Unchanged(zone, at, instant);
  }

  /** Where a recorded instant lies between two seconds in a row, it is the later one. */
  lemma EntryBetween(ts: seq<Transition>, instant: int)
    requires ts != [] && Whole(instant) && forall i | 0 <= i < |ts| :: Whole(ts[i].instant)
    requires forall i, j | 0 <= i < j < |ts| :: ts[i].instant < ts[j].instant
    requires OffsetAfter(ts, instant - 1000) != OffsetAfter(ts, instant)
    ensures Recorded(ts, instant)
  {
    var m := DecidingEntry(ts, instant - 1000);
    var n := DecidingEntry(ts, instant);
    if m > 0 {
      assert ts[m - 1].instant <= instant;
    }
    assert m < n && instant - 1000 < ts[m].instant <= instant;
    assert ts[m].instant == instant;
  }

  /** Entries that reproduce the zone are complete: an offset that changes unrecorded is given wrongly. */
  lemma ReproducingIsComplete(zone: Zone, low: int, high: int, block: Block)
    requires Whole(low) && (block.Changing? ==> block.transitions != [])
    requires Sound(zone, low, high, Entries(block)) && Reproduces(zone, low, high, block)
    ensures Complete(zone, low, high, Entries(block))
  {
    var ts := Entries(block);
    forall i | low < i <= high && Whole(i) ensures ChangeAt(zone, i) <==> Recorded(ts, i) {
      if Recorded(ts, i) {
        var j :| 0 <= j < |ts| && ts[j].instant == i;
        assert Genuine(zone, ts[j]);
      } else {
        ReproducedStays(zone, low, high, block, i);
      }
    }
  }

  lemma ReproducedStays(zone: Zone, low: int, high: int, block: Block, instant: int)
    requires Whole(low) && low < instant <= high && Whole(instant) && (block.Changing? ==> block.transitions != [])
    requires Sound(zone, low, high, Entries(block)) && Reproduces(zone, low, high, block)
    requires !Recorded(Entries(block), instant)
    ensures !ChangeAt(zone, instant)
  {
    WholeBefore(low, instant);
    assert OffsetIn(block, instant) == zone(instant).offset
      && OffsetIn(block, instant - 1000) == zone(instant - 1000).offset;
    if block.Changing? && OffsetIn(block, instant - 1000) != OffsetIn(block, instant) {
      EntryBetween(block.transitions, instant);
    }
  }

  lemma WholeBefore(low: int, instant: int)
    requires Whole(low) && Whole(instant) && low < instant
    ensures Whole(instant - 1000) && low <= instant - 1000
  {
  }

  /**
   A block holds real changes up to its last sample, at most a week before the
   end; a steady one what was seen there. It holds all of them, and gives the
   zone's offset at every second, exactly when no week has two.
   */
  ghost predicate Meant(zone: Zone, start: int, end: int, block: Block)
    requires Whole(start) && start <= end
  {
    var last := Sample(start, Weeks(start, end));
    && end - 604_800_000 < last <= end && Sound(zone, start, last, Entries(block))
    && (block.Steady? ==> block.at == zone(last)) && (block.Changing? ==> block.transitions != [])
    && (OneChangeAWeek(zone, start, Weeks(start, end)) <==> Complete(zone, start, last, Entries(block)))
    && (OneChangeAWeek(zone, start, Weeks(start, end)) <==> Reproduces(zone, start, last, block))
  }

  lemma BlockBetweenMeans(zone: Zone, start: int, end: int)
    requires Whole(start) && start <= end
    ensures Meant(zone, start, end, BlockBetween(zone, start, end))
  {
    var weeks := Weeks(start, end);
    var last := Sample(start, weeks);
    var block := BlockBetween(zone, start, end);
    var ts := Transitions(zone, start, weeks);
    assert Entries(block) == ts;
    WeeksFit(start, end);
    NextSample(start, weeks);
    TransitionsSound(zone, start, weeks);
    TransitionsComplete(zone, start, weeks);
    if Complete(zone, start, last, ts) {
      CompleteBlockReproduces(zone, start, last, block);
    }
    if Reproduces(zone, start, last, block) {
      ReproducingIsComplete(zone, start, last, block);
    }
  }

  lemma CompleteBlockReproduces(zone: Zone, low: int, high: int, block: Block)
    requires Whole(low) && Whole(high) && low <= high && (block.Changing? ==> block.transitions != [])
    requires Sound(zone, low, high, Entries(block)) && Complete(zone, low, high, Entries(block))
    requires block.Steady? ==> block.at == zone(high)
    ensures Reproduces(zone, low, high, block)
  {
    forall i | low <= i <= high && Whole(i) ensures OffsetIn(block, i) == zone(i).offset {
      if block.Steady? {
        assert forall j | low < j <= high && Whole(j) :: !Recorded(Entries(block), j);
        Unchanged(zone, i, high);
      } else {
        CompleteReproduces(zone, low, high, block.transitions, i);
      }
    }
  }

  /** The block of the years from `first` to `last` is meant for the time between their ends. */
  ghost predicate YearsMeant(zone: Zone, first: int, last: int, block: Block) {
    YearStart(first) <= YearStart(last + 1) && Meant(zone, YearStart(first), YearStart(last + 1), block)
  }

  lemma YearsMean(zone: Zone, first: int, last: int)
    requires first <= last
    ensures YearsMeant(zone, first, last, BlockOf(zone, first, last))
  {
    var start, end := YearStart(first), YearStart(last + 1);
    YearsOrdered(first, last);
    BlockBetweenMeans(zone, start, end);
  }

  predicate Asked(firstYear: int, lastYear: int, y: int) {
    firstYear <= y <= lastYear && 1970 <= y <= 2100
  }

  function Distance(a: int, b: int): int {
    if a < b then b - a else a - b
  }

  /**
   The block covers exactly the years asked for that lie in 1970 to 2100; where
   there are none, the one year nearest to the first year asked for.
   */
  lemma YearsExactly(firstYear: int, lastYear: int)
    ensures var first, last := FirstYear(firstYear), LastYear(firstYear, lastYear);
      && 1970 <= first <= last <= 2100
      && if exists y :: Asked(firstYear, lastYear, y)
         then forall y :: first <= y <= last <==> Asked(firstYear, lastYear, y)
         else first == last && forall y | 1970 <= y <= 2100 :: Distance(first, firstYear) <= Distance(y, firstYear)
  {
    var low := if firstYear < 1970 then 1970 else firstYear;
    if low <= lastYear && low <= 2100 {
      assert Asked(firstYear, lastYear, low);
    }
  }

  lemma YearsGiven(firstYear: int, lastYear: int)
    requires 1970 <= firstYear <= lastYear <= 2100
    ensures FirstYear(firstYear) == firstYear && LastYear(firstYear, lastYear) == lastYear
  {
  }

  /**
   What a caller of `timeZoneLines` may rely on, whatever the years asked for:
   the block it gets is meant for the years of the request.
   */
  lemma BlockMeans(zone: Zone, firstYear: int, lastYear: int)
    ensures YearsMeant(zone, FirstYear(firstYear), LastYear(firstYear, lastYear), BlockAsked(zone, firstYear, lastYear))
    ensures 1970 <= firstYear <= lastYear <= 2100 ==>
      YearsMeant(zone, firstYear, lastYear, BlockAsked(zone, firstYear, lastYear))
  {
    YearsExactly(firstYear, lastYear);
    YearsMean(zone, FirstYear(firstYear), LastYear(firstYear, lastYear));
    if 1970 <= firstYear <= lastYear <= 2100 {
      YearsGiven(firstYear, lastYear);
    }
  }

  /** A new block is found in the cache, and only the oldest entry can be gone, when 256 were held. */
  lemma CacheExactly(cache: seq<Entry<Str, Block>>, key: Str, block: Block, other: Str)
    requires Distinct(cache) && !Has(cache, key) && cache != []
    ensures var next := Stored(cache, key, block);
      && Get(next, key) == Some(block)
      && (other != key ==> Get(next, other) == if |cache| >= 256 && other == cache[0].key then None
        else Get(cache, other))
  {
    var kept := if |cache| >= 256 then cache[1..] else cache;
    DistinctTail(cache);
    assert Get(kept, key).None?;
    SetAbsent(kept, key, block);
    GetSet(kept, key, block, key);
    GetSet(kept, key, block, other);
  }
}
