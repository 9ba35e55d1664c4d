/** utils/uidgen/simple_uid.go: the identifiers made from the clock and a counter, by calls that do not overlap. */
module Uid {
  import opened Decimal

  const TWO64 := 0x1_0000_0000_0000_0000

  type Uint64 = x: int | 0 <= x < TWO64

  /** A reading of the clock. */
  datatype Now = Now(year: int, yearDay: int, hour: int, minute: int, second: int, nanosecond: int) {
    ghost predicate Ok() {
      1 <= yearDay <= 366 && 0 <= hour < 24 && 0 <= minute < 60 && 0 <= second < 60 && 0 <= nanosecond < 1_000_000_000
    }
  }

  type Clock = t: Now | t.Ok() ghost witness Now(2025, 1, 0, 0, 0, 0)

  /** The seconds since midnight, times 100000, and the tenths of milliseconds since then. */
  function Base(t: Clock): (b: Uint64)
    ensures b < 8_640_000_000
  {
    (t.hour * 3600 + t.minute * 60 + t.second) * 100000 + t.nanosecond / 100000
  }

  /** The base tells the time of the day, to a tenth of a millisecond. */
  lemma BaseTells(t: Clock)
    ensures t.hour == Base(t) / 360_000_000 && t.minute == Base(t) / 6_000_000 % 60
    ensures t.second == Base(t) / 100_000 % 60 && t.nanosecond / 100_000 == Base(t) % 100_000
  {
    var tenths := t.nanosecond / 100_000;
    var minutes := t.hour * 60 + t.minute;
    var seconds := minutes * 60 + t.second;
    assert Base(t) == seconds * 100_000 + tenths;
    SecondsTell(seconds, tenths);
    MinutesTell(minutes, t.second * 100_000 + tenths);
    HoursTell(t.hour, t.minute * 6_000_000 + t.second * 100_000 + tenths);
  }

  lemma SecondsTell(q: int, r: int)
    requires 0 <= r < 100_000
    ensures (q * 100_000 + r) / 100_000 == q && (q * 100_000 + r) % 100_000 == r
  {
  }

  lemma MinutesTell(q: int, r: int)
    requires 0 <= r < 6_000_000
    ensures (q * 6_000_000 + r) / 6_000_000 == q
  {
  }

  lemma HoursTell(q: int, r: int)
    requires 0 <= r < 360_000_000
    ensures (q * 360_000_000 + r) / 360_000_000 == q
  {
  }

  function YearPart(t: Clock): int { 100 + (t.year - 2025) }

  function DayPart(t: Clock): (d: nat)
    ensures 522 <= d <= 887
  {
    t.yearDay + 521
  }

  function Text(t: Clock, sequence: Uint64): string {
    Pad(YearPart(t), 3) + Pad(DayPart(t), 3) + Pad(sequence, 10)
  }

  datatype Taken = Taken(counter: Uint64, number: Uint64)

  /** The counter wraps around like the 64 bits it is. */
  function Plus(counter: Uint64): Uint64 {
    (counter + 1) % TWO64
  }

  /** The rest of a call that got `s` from the counter: if that is behind the clock, it takes the time instead, and
    * moves the counter there, unless another call has moved it. */
  function Finish(counter: Uint64, s: Uint64, t: Clock): Taken {
    if s < Base(t) then Taken(if counter == s then Base(t) else counter, Base(t)) else Taken(counter, s)
  }

  /** The counter after a call on its own, which is also the number the call gets. */
  function Next(counter: Uint64, t: Clock): (n: Uint64)
    ensures Finish(Plus(counter), Plus(counter), t) == Taken(n, n)
  {
    Finish(Plus(counter), Plus(counter), t).counter
  }

  /** A call on its own gets the next number, or the time if that is larger. */
  lemma NextIsMax(counter: Uint64, t: Clock)
    ensures var n := (counter + 1) % 0x1_0000_0000_0000_0000; Next(counter, t) == if n < Base(t) then Base(t) else n
  {
  }

  /** A call gets a larger number than all before it, unless the counter is exhausted. */
  lemma NextGrowsIff(counter: Uint64, t: Clock)
    ensures Next(counter, t) > counter <==> counter < TWO64 - 1
  {
  }

  lemma NextIsBounded(counter: Uint64, t: Clock)
    requires counter < TWO64 - 1
    ensures counter < Next(counter, t) && (Next(counter, t) < 8_640_000_000 || Next(counter, t) == counter + 1)
  {
  }

  /** The counter after the first `n` calls. */
  function Counter(clock: seq<Clock>, n: nat): Uint64
    requires n <= |clock|
  {
    if n == 0 then 0 else Next(Counter(clock, n - 1), clock[n - 1])
  }

  lemma {:induction false} CounterIsBounded(clock: seq<Clock>, n: nat)
    requires n <= |clock| && n < TWO64 - 8_640_000_000
    ensures Counter(clock, n) < 8_640_000_000 + n
  {
    if n == 0 {
    } else {
      CounterIsBounded(clock, n - 1);
      NextIsBounded(Counter(clock, n - 1), clock[n - 1]);
    }
  }

  /** In any run, with any readings of the clock in any order, the numbers strictly increase; the bound on the length is
    * what 64 bits hold. */
  lemma {:induction false} NumbersIncrease(clock: seq<Clock>, i: nat, j: nat)
    requires i < j <= |clock| && j < TWO64 - 8_640_000_000
    ensures Counter(clock, i) < Counter(clock, j)
    decreases j
  {
    CounterIsBounded(clock, j - 1);
    NextIsBounded(Counter(clock, j - 1), clock[j - 1]);
    if i < j - 1 {
      NumbersIncrease(clock, i, j - 1);
    }
  }

  /** The number of call `i`. */
  function NumberAt(clock: seq<Clock>, i: nat): Uint64
    requires i < |clock|
  {
    Counter(clock, i + 1)
  }

  lemma NumberGrows(clock: seq<Clock>, i: nat, j: nat)
    requires i < j < |clock| && j + 1 < TWO64 - 8_640_000_000
    ensures NumberAt(clock, i) < NumberAt(clock, j)
  {
    NumbersIncrease(clock, i + 1, j + 1);
  }

  /** The first 1.36 billion calls of a process all get numbers of at most ten digits. */
  lemma TenDigitsLast(clock: seq<Clock>, i: nat)
    requires i < |clock| && i < 1_360_000_000
    ensures NumberAt(clock, i) < 10_000_000_000
  {
    CounterIsBounded(clock, i + 1);
  }

  /** That is for calls one after the other. If a second call adds to the counter before the first one is finished,
    * then whichever finishes first, both get the same number exactly in this case: the first one's clock is ahead of
    * both, and agrees with the second's, or with the number the second took. Only the second one moves the counter. */
  lemma OverlappingCallsCollideIff(counter: Uint64, t: Clock, u: Clock)
    requires counter < TWO64 - 2
    ensures var a, b := Plus(counter), Plus(Plus(counter));
            var first := Finish(b, a, t);
            var second := Finish(first.counter, b, u);
            var second' := Finish(b, b, u);
            var first' := Finish(second'.counter, a, t);
            && first.number == first'.number && second.number == second'.number
            && first.counter == b && second'.counter == (if b < Base(u) then Base(u) else b)
            && second.counter == second'.counter == first'.counter
            && (first.number == second.number <==> Base(t) >= b && (Base(t) == Base(u) || Base(t) == b >= Base(u)))
  {
  }

  const NOON: Clock := Now(2025, 1, 12, 0, 0, 0)

  /** So the first two calls of a process collide, if both read noon before either has moved the counter. */
  lemma NoonCallsCollide()
    ensures var first := Finish(Plus(Plus(0)), Plus(0), NOON);
            var second := Finish(first.counter, Plus(Plus(0)), NOON);
            first.number == second.number && Text(NOON, first.number) == Text(NOON, second.number)
  {
  }

  // ----- the text

  /** Sixteen digits, exactly while the year has three digits counted from 1925 and the number has ten. */
  lemma SixteenDigitsIff(t: Clock, sequence: Uint64)
    ensures AllDigits(Text(t, sequence)) && |Text(t, sequence)| == 16 <==>
            1925 <= t.year <= 2924 && sequence < 10_000_000_000
  {
    var y, d, q := Pad(YearPart(t), 3), Pad(DayPart(t), 3), Pad(sequence, 10);
    Widths();
    PadDigitsIff(YearPart(t), 3);
    PadDigitsIff(DayPart(t), 3);
    PadDigitsIff(sequence, 10);
    PadIsWide(YearPart(t), 3);
    PadIsWide(sequence, 10);
    var s := Text(t, sequence);
    assert s[..|y|] == y && s[|y| + 3..] == q;
    assert AllDigits(s) ==> AllDigits(s[..|y|]) && AllDigits(s[|y| + 3..]);
  }

  lemma Widths()
    ensures Shift(1, 3) == 1000 && Shift(1, 10) == 10_000_000_000
  {
    assert Shift(1, 5) == 100_000;
  }

  lemma PadIsWide(x: int, w: nat)
    ensures |Pad(x, w)| >= w
  {
  }

  /** The year parts of the two texts are equally long. */
  ghost predicate SameWidth(t: Clock, u: Clock) {
    |Pad(YearPart(t), 3)| == |Pad(YearPart(u), 3)|
  }

  /** As they are in these thousand years. */
  lemma SameWidthForYears(t: Clock, u: Clock)
    requires 1925 <= t.year <= 2924 && 1925 <= u.year <= 2924
    ensures SameWidth(t, u)
  {
    Widths();
    PadDigitsIff(YearPart(t), 3);
    PadDigitsIff(YearPart(u), 3);
  }

  lemma TextEnds(t: Clock, n: Uint64)
    ensures var s := Text(t, n); var k := |Pad(YearPart(t), 3)| + 3; k <= |s| && s[k..] == Pad(n, 10)
  {
    Widths();
    PadDigitsIff(DayPart(t), 3);
  }

  /** Different numbers give different texts, if the year parts are equally long or the numbers have at most ten
    * digits. */
  lemma DifferentTexts(t: Clock, m: Uint64, u: Clock, n: Uint64)
    requires m < n && (n < 10_000_000_000 || SameWidth(t, u))
    ensures Text(t, m) != Text(u, n)
  {
    Widths();
    PadDigitsIff(m, 10);
    PadDigitsIff(n, 10);
    NumberOfPad(m, 10);
    NumberOfPad(n, 10);
    TextEnds(t, m);
    TextEnds(u, n);
    if n < 10_000_000_000 {
      var a, b := Text(t, m), Text(u, n);
      assert a[|a| - 10..] == Pad(m, 10) && b[|b| - 10..] == Pad(n, 10);
    }
  }

  /** Main result: two calls of a process get different texts, whatever their dates if the later number has at most ten
    * digits, and whatever their numbers if the year parts are equally long. */
  lemma TextsAreDistinct(clock: seq<Clock>, i: nat, j: nat)
    requires i < j < |clock| && j + 1 < TWO64 - 8_640_000_000
    requires NumberAt(clock, j) < 10_000_000_000 || SameWidth(clock[i], clock[j])
    ensures Text(clock[i], NumberAt(clock, i)) != Text(clock[j], NumberAt(clock, j))
  {
    NumberGrows(clock, i, j);
    DifferentTexts(clock[i], NumberAt(clock, i), clock[j], NumberAt(clock, j));
  }

  /** Within the years that have 16 digits, the number that `GenId` parses from the text: it tells the text. */
  lemma IdIs(t: Clock, sequence: Uint64)
    requires 1925 <= t.year <= 2924 && sequence < 10_000_000_000
    ensures ParseInt(Text(t, sequence)).Some?
    ensures ParseInt(Text(t, sequence)).value ==
            ((t.year - 1925) * 1000 + t.yearDay + 521) * 10_000_000_000 + sequence
  {
    NumberOfText(t, sequence);
    ParseOfDigits(Text(t, sequence));
  }

  /** The two parts of the date, as one number. */
  lemma NumberOfDate(t: Clock)
    requires 1925 <= t.year <= 2924
    ensures var s := Pad(YearPart(t), 3) + Pad(DayPart(t), 3);
            AllDigits(s) && Number(s) == YearPart(t) * 1000 + DayPart(t)
  {
    Widths();
    PadDigitsIff(YearPart(t), 3);
    PadDigitsIff(DayPart(t), 3);
    NumberOfPad(YearPart(t), 3);
    NumberOfPad(DayPart(t), 3);
    NumberOfConcat(Pad(YearPart(t), 3), Pad(DayPart(t), 3));
    ShiftIs(YearPart(t), 0);
  }

  lemma NumberOfText(t: Clock, sequence: Uint64)
    requires 1925 <= t.year <= 2924 && sequence < 10_000_000_000
    ensures var s := Text(t, sequence);
            && s != "" && AllDigits(s)
            && Number(s) == (YearPart(t) * 1000 + DayPart(t)) * 10_000_000_000 + sequence
  {
    NumberOfDate(t);
    Widths();
    PadDigitsIff(sequence, 10);
    NumberOfPad(sequence, 10);
    NumberOfConcat(Pad(YearPart(t), 3) + Pad(DayPart(t), 3), Pad(sequence, 10));
    ShiftIs(0, YearPart(t) * 1000 + DayPart(t));
  }

  lemma ShiftIs(x: nat, y: nat)
    ensures Shift(x, 3) == 1000 * x && Shift(y, 10) == 10_000_000_000 * y
  {
    assert Shift(x, 1) == 10 * x && Shift(x, 2) == 100 * x;
    assert Shift(y, 1) == 10 * y && Shift(y, 2) == 100 * y;
    assert Shift(y, 4) == 10_000 * y;
    assert Shift(y, 6) == 1_000_000 * y;
    assert Shift(y, 8) == 100_000_000 * y;
  }

  /** Sixteen digits without a leading zero: from 2025 on. */
  lemma SixteenDigitIdIff(t: Clock, sequence: Uint64)
    requires 1925 <= t.year <= 2924 && sequence < 10_000_000_000
    ensures ParseInt(Text(t, sequence)).Some?
    ensures 1_000_000_000_000_000 <= ParseInt(Text(t, sequence)).value < 10_000_000_000_000_000 <==> 2025 <= t.year
  {
    IdIs(t, sequence);
  }

  /** Main result for the numbers: they are different too, within those years and while the later one has at most ten
    * digits. */
  lemma IdsAreDistinct(clock: seq<Clock>, i: nat, j: nat)
    requires i < j < |clock| && j + 1 < TWO64 - 8_640_000_000 && NumberAt(clock, j) < 10_000_000_000
    requires 1925 <= clock[i].year <= 2924 && 1925 <= clock[j].year <= 2924
    ensures ParseInt(Text(clock[i], NumberAt(clock, i))) != ParseInt(Text(clock[j], NumberAt(clock, j)))
  {
    NumberGrows(clock, i, j);
    DifferentIds(clock[i], NumberAt(clock, i), clock[j], NumberAt(clock, j));
  }

  lemma DifferentIds(t: Clock, m: Uint64, u: Clock, n: Uint64)
    requires 1925 <= t.year <= 2924 && 1925 <= u.year <= 2924 && m < n < 10_000_000_000
    ensures ParseInt(Text(t, m)) != ParseInt(Text(u, n))
  {
    IdIs(t, m);
    IdIs(u, n);
    SameRest(YearPart(t) * 1000 + DayPart(t), m, YearPart(u) * 1000 + DayPart(u), n);
  }

  lemma SameRest(a: int, m: int, b: int, n: int)
    requires 0 <= m < 10_000_000_000 && 0 <= n < 10_000_000_000 && m != n
    ensures a * 10_000_000_000 + m != b * 10_000_000_000 + n
  {
  }

  // ----- the code

  /** The process-wide counter. */
  class Generator {
    var counter: Uint64

    constructor ()
      ensures counter == 0
    {
      counter := 0;
    }

    method AddOne() returns (s: Uint64)
      modifies this
      ensures counter == s == Plus(old(counter))
    {
      counter := (counter + 1) % TWO64;
      s := counter;
    }

    method CompareAndSwap(was: Uint64, now: Uint64) returns (swapped: bool)
      modifies this
      ensures swapped == (old(counter) == was)
      ensures counter == if swapped then now else old(counter)
    {
      swapped := counter == was;
      if swapped {
        counter := now;
      }
    }

    method GenSid(now: Clock) returns (id: string)
      modifies this
      ensures counter == Next(old(counter), now) && id == Text(now, counter)
    {
      var yearPart := 100 + (now.year - 2025);
      var dayPart := now.yearDay + 521;
      var secsOfDay := now.hour * 3600 + now.minute * 60 + now.second;
      var subSecondPart := now.nanosecond / 100000;
      var base := secsOfDay * 100000 + subSecondPart;
      var s := AddOne();
      if s < base {
        var _ := CompareAndSwap(s, base);
        s := base;
      }
      id := Pad(yearPart, 3) + Pad(dayPart, 3) + Pad(s, 10);
    }

    /** The error of `ParseInt` is ignored, and the value it comes with is the end of the range; the text is always
      * digits after at most one sign. */
    method GenId(now: Clock) returns (id: int)
      modifies this
      ensures counter == Next(old(counter), now)
      ensures var p := ParseInt(Text(now, counter));
              id == if p.Some? then p.value
              else if Text(now, counter)[0] == '-' then MIN_INT64 else MAX_INT64
    {
      var idStr := GenSid(now);
      var p := ParseInt(idStr);
      id := if p.Some? then p.value else if idStr[0] == '-' then MIN_INT64 else MAX_INT64;
    }
  }
}
