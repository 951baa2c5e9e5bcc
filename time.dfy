/**
 * Naive timestamps (Python's `datetime.datetime` without a time zone), their order,
 * and the ISO 8601 text that `isoformat` writes and `fromisoformat` reads back.
 */
module Time {
  import opened Wrappers

  datatype DateTime = DateTime(year: int, month: int, day: int,
                               hour: int, minute: int, second: int, microsecond: int)

  predicate IsLeapYear(year: int) {
    year % 4 == 0 && (year % 100 != 0 || year % 400 == 0)
  }

  function DaysInMonth(year: int, month: int): int {
    if month == 2 then (if IsLeapYear(year) then 29 else 28)
    else if month == 4 || month == 6 || month == 9 || month == 11 then 30
    else 31
  }

  /** The field ranges `datetime.datetime` accepts (MINYEAR is 1, MAXYEAR is 9999). */
  predicate ValidDateTime(t: DateTime) {
    && 1 <= t.year <= 9999
    && 1 <= t.month <= 12
    && 1 <= t.day <= DaysInMonth(t.year, t.month)
    && 0 <= t.hour < 24
    && 0 <= t.minute < 60
    && 0 <= t.second < 60
    && 0 <= t.microsecond < 1000000
  }

  type Timestamp = t: DateTime | ValidDateTime(t) witness DateTime(1, 1, 1, 0, 0, 0, 0)

  /** `datetime.datetime.min`. */
  const MinTimestamp: Timestamp := DateTime(1, 1, 1, 0, 0, 0, 0)

  /** Python's `<` on naive datetimes: field by field, most significant first. */
  predicate Before(a: DateTime, b: DateTime) {
    if a.year != b.year then a.year < b.year
    else if a.month != b.month then a.month < b.month
    else if a.day != b.day then a.day < b.day
    else if a.hour != b.hour then a.hour < b.hour
    else if a.minute != b.minute then a.minute < b.minute
    else if a.second != b.second then a.second < b.second
    else a.microsecond < b.microsecond
  }

  // ---------------------------------------------------------------------------
  // A timestamp as one number, so that sort keys can be integers
  // ---------------------------------------------------------------------------

  function Mix(high: int, radix: int, low: int): int {
    high * radix + low
  }

  lemma {:induction false} StepBelow(a: int, c: int, radix: int)
    requires a < c && 0 < radix
    ensures a * radix + radix <= c * radix
    decreases c - a
  {
    assert (a + 1) * radix == a * radix + radix;
    if a + 1 < c {
      StepBelow(a + 1, c, radix);
    }
  }

  lemma MixCompare(a: int, c: int, radix: int, x: int, z: int)
    requires 0 <= x < radix && 0 <= z < radix
    ensures Mix(a, radix, x) < Mix(c, radix, z) <==> a < c || (a == c && x < z)
    ensures Mix(a, radix, x) == Mix(c, radix, z) <==> a == c && x == z
  {
    if a < c {
      StepBelow(a, c, radix);
    } else if c < a {
      StepBelow(c, a, radix);
    }
  }

  lemma MixBound(a: int, bound: int, radix: int, x: int)
    requires 0 <= a < bound && 0 <= x < radix
    ensures 0 <= Mix(a, radix, x) < bound * radix
  {
    StepBelow(a, bound, radix);
    if 0 < a {
      StepBelow(0, a, radix);
    }
  }

  const OrdinalLimit: nat := 321408000000000000

  function Ordinal(t: Timestamp): (n: nat)
    ensures n < OrdinalLimit
  {
    MixBound(t.year, 10000, 12, t.month - 1);
    MixBound(Mix(t.year, 12, t.month - 1), 120000, 31, t.day - 1);
    MixBound(DayPart(t), 3720000, 24, t.hour);
    var h := Mix(DayPart(t), 24, t.hour);
    MixBound(h, 89280000, 60, t.minute);
    MixBound(Mix(h, 60, t.minute), 5356800000, 60, t.second);
    MixBound(Mix(Mix(h, 60, t.minute), 60, t.second), 321408000000, 1000000, t.microsecond);
    Mix(Mix(Mix(h, 60, t.minute), 60, t.second), 1000000, t.microsecond)
  }

  /** The ordinal of the date. */
  function DayPart(t: Timestamp): int {
    Mix(Mix(t.year, 12, t.month - 1), 31, t.day - 1)
  }

  /** The ordinal of the fields above the microsecond. */
  function SecondsPart(t: Timestamp): int {
    Mix(Mix(Mix(DayPart(t), 24, t.hour), 60, t.minute), 60, t.second)
  }

  predicate SameSecond(a: DateTime, b: DateTime) {
    a.year == b.year && a.month == b.month && a.day == b.day &&
    a.hour == b.hour && a.minute == b.minute && a.second == b.second
  }

  predicate BeforeSecond(a: DateTime, b: DateTime) {
    if a.year != b.year then a.year < b.year
    else if a.month != b.month then a.month < b.month
    else if a.day != b.day then a.day < b.day
    else if a.hour != b.hour then a.hour < b.hour
    else if a.minute != b.minute then a.minute < b.minute
    else a.second < b.second
  }

  lemma SecondsPartOrder(a: Timestamp, b: Timestamp)
    ensures SecondsPart(a) < SecondsPart(b) <==> BeforeSecond(a, b)
    ensures SecondsPart(a) == SecondsPart(b) <==> SameSecond(a, b)
  {
    DayPartOrder(a, b);
    var ha, hb := Mix(DayPart(a), 24, a.hour), Mix(DayPart(b), 24, b.hour);
    MixCompare(DayPart(a), DayPart(b), 24, a.hour, b.hour);
    var ia, ib := Mix(ha, 60, a.minute), Mix(hb, 60, b.minute);
    MixCompare(ha, hb, 60, a.minute, b.minute);
    MixCompare(ia, ib, 60, a.second, b.second);
  }

  lemma DayPartOrder(a: Timestamp, b: Timestamp)
    ensures DayPart(a) < DayPart(b) <==>
              a.year < b.year || (a.year == b.year && (a.month < b.month || (a.month == b.month && a.day < b.day)))
    ensures DayPart(a) == DayPart(b) <==> a.year == b.year && a.month == b.month && a.day == b.day
  {
    var ma, mb := Mix(a.year, 12, a.month - 1), Mix(b.year, 12, b.month - 1);
    MixCompare(a.year, b.year, 12, a.month - 1, b.month - 1);
    MixCompare(ma, mb, 31, a.day - 1, b.day - 1);
  }

  /** Comparing ordinals is comparing the timestamps as Python does, and equal ordinals are equal timestamps. */
  lemma OrdinalOrder(a: Timestamp, b: Timestamp)
    ensures Ordinal(a) < Ordinal(b) <==> Before(a, b)
    ensures Ordinal(a) == Ordinal(b) <==> a == b
  {
    assert Ordinal(a) == Mix(SecondsPart(a), 1000000, a.microsecond);
    assert Ordinal(b) == Mix(SecondsPart(b), 1000000, b.microsecond);
    SecondsPartOrder(a, b);
    MixCompare(SecondsPart(a), SecondsPart(b), 1000000, a.microsecond, b.microsecond);
  }

  // ---------------------------------------------------------------------------
  // ISO 8601 text
  // ---------------------------------------------------------------------------

  function Pow10(n: nat): nat {
    if n == 0 then 1 else 10 * Pow10(n - 1)
  }

  function DigitChar(d: int): char
    requires 0 <= d < 10
  {
    ('0' as int + d) as char
  }

  /** `%0<width>d`: the last `width` decimal digits of `n`, most significant first. */
  function Digits(n: nat, width: nat): (s: string)
    ensures |s| == width
  {
    if width == 0 then "" else Digits(n / 10, width - 1) + [DigitChar(n % 10)]
  }

  /** The number a string of decimal digits denotes; None if a character is not a digit. */
  function ParseDigits(s: string): Option<nat> {
    if s == "" then Some(0)
    else
      var last := s[|s| - 1];
      match ParseDigits(s[..|s| - 1])
      case None => None
      case Some(v) => if '0' <= last <= '9' then Some(v * 10 + (last as int - '0' as int)) else None
  }

  lemma {:induction false} DigitsRoundTrip(n: nat, width: nat)
    requires n < Pow10(width)
    ensures ParseDigits(Digits(n, width)) == Some(n)
  {
    if width > 0 {
      DigitsRoundTrip(n / 10, width - 1);
      var s := Digits(n, width);
      assert s[..|s| - 1] == Digits(n / 10, width - 1);
    }
  }

  /** YYYY-MM-DD. */
  function IsoDate(t: Timestamp): (s: string)
    ensures |s| == 10
  {
    Digits(t.year, 4) + "-" + Digits(t.month, 2) + "-" + Digits(t.day, 2)
  }

  /** HH:MM:SS. */
  function IsoTime(t: Timestamp): (s: string)
    ensures |s| == 8
  {
    Digits(t.hour, 2) + ":" + Digits(t.minute, 2) + ":" + Digits(t.second, 2)
  }

  /** .ffffff, or nothing when the microsecond is zero. */
  function IsoFraction(t: Timestamp): (s: string)
    ensures |s| == (if t.microsecond == 0 then 0 else 7)
  {
    if t.microsecond == 0 then "" else "." + Digits(t.microsecond, 6)
  }

  /**
   * `datetime.isoformat()` of a naive datetime: YYYY-MM-DDTHH:MM:SS, followed by
   * .ffffff only when the microsecond is not zero.
   */
  function IsoFormat(t: Timestamp): (s: string)
    ensures |s| == (if t.microsecond == 0 then 19 else 26)
  {
    IsoDate(t) + "T" + IsoTime(t) + IsoFraction(t)
  }

  /** `datetime.fromisoformat` on the two shapes `isoformat` writes; None where it raises. */
  function FromIsoFormat(s: string): (r: Option<Timestamp>)
    ensures r.Some? ==> |s| == 19 || |s| == 26
  {
    if !(|s| == 19 || (|s| == 26 && s[19] == '.')) then None
    else if s[4] != '-' || s[7] != '-' || s[10] != 'T' || s[13] != ':' || s[16] != ':' then None
    else
      var year :- ParseDigits(s[0..4]);
      var month :- ParseDigits(s[5..7]);
      var day :- ParseDigits(s[8..10]);
      var hour :- ParseDigits(s[11..13]);
      var minute :- ParseDigits(s[14..16]);
      var second :- ParseDigits(s[17..19]);
      var micro :- if |s| == 26 then ParseDigits(s[20..26]) else Some(0);
      var t := DateTime(year, month, day, hour, minute, second, micro);
      if ValidDateTime(t) then Some(t) else None
  }

  /** Where each field stands in the text `isoformat` writes. */
  lemma IsoFormatLayout(t: Timestamp)
    ensures var s := IsoFormat(t);
      && s[4] == '-' && s[7] == '-' && s[10] == 'T' && s[13] == ':' && s[16] == ':'
      && s[0..4] == Digits(t.year, 4) && s[5..7] == Digits(t.month, 2) && s[8..10] == Digits(t.day, 2)
      && s[11..13] == Digits(t.hour, 2) && s[14..16] == Digits(t.minute, 2) && s[17..19] == Digits(t.second, 2)
      && (t.microsecond != 0 ==> s[19] == '.' && s[20..26] == Digits(t.microsecond, 6))
  {
    var s := IsoFormat(t);
    var date, time, frac := IsoDate(t), IsoTime(t), IsoFraction(t);
    assert forall k :: 0 <= k < 10 ==> s[k] == date[k];
    assert forall k :: 0 <= k < 8 ==> s[11 + k] == time[k];
    assert forall k :: 0 <= k < |frac| ==> s[19 + k] == frac[k];
    ThreeFields(date, Digits(t.year, 4), Digits(t.month, 2), Digits(t.day, 2), '-');
    ThreeFields(time, Digits(t.hour, 2), Digits(t.minute, 2), Digits(t.second, 2), ':');
    Part(s, 0, Digits(t.year, 4));
    Part(s, 5, Digits(t.month, 2));
    Part(s, 8, Digits(t.day, 2));
    Part(s, 11, Digits(t.hour, 2));
    Part(s, 14, Digits(t.minute, 2));
    Part(s, 17, Digits(t.second, 2));
    if t.microsecond != 0 {
      assert forall k :: 0 <= k < 6 ==> frac[1 + k] == Digits(t.microsecond, 6)[k];
      Part(s, 20, Digits(t.microsecond, 6));
    }
  }

  /** Where the three fields and the two separators of `x + [sep] + y + [sep] + z` stand. */
  lemma ThreeFields(s: string, x: string, y: string, z: string, sep: char)
    requires s == x + [sep] + y + [sep] + z && |y| == 2
    ensures s[|x|] == sep && s[|x| + 3] == sep
    ensures forall k :: 0 <= k < |x| ==> s[k] == x[k]
    ensures forall k :: 0 <= k < 2 ==> s[|x| + 1 + k] == y[k]
    ensures forall k :: 0 <= k < |z| ==> s[|x| + 4 + k] == z[k]
  {
  }

  /** A slice that agrees with a string character by character is that string. */
  lemma Part(s: string, at: nat, p: string)
    requires at + |p| <= |s| && forall k :: 0 <= k < |p| ==> s[at + k] == p[k]
    ensures s[at..at + |p|] == p
  {
    assert forall k :: 0 <= k < |p| ==> s[at..at + |p|][k] == p[k];
  }

  /** `fromisoformat(t.isoformat()) == t`. */
  lemma IsoFormatRoundTrip(t: Timestamp)
    ensures FromIsoFormat(IsoFormat(t)) == Some(t)
  {
    IsoFormatLayout(t);
    IsoFieldsParse(t);
  }

  /** Each field `isoformat` writes parses back to its value. */
  lemma IsoFieldsParse(t: Timestamp)
    ensures var s := IsoFormat(t);
      && ParseDigits(s[0..4]) == Some(t.year as nat) && ParseDigits(s[5..7]) == Some(t.month as nat)
      && ParseDigits(s[8..10]) == Some(t.day as nat) && ParseDigits(s[11..13]) == Some(t.hour as nat)
      && ParseDigits(s[14..16]) == Some(t.minute as nat) && ParseDigits(s[17..19]) == Some(t.second as nat)
      && (t.microsecond != 0 ==> ParseDigits(s[20..26]) == Some(t.microsecond as nat))
  {
    assert Pow10(2) == 100 && Pow10(4) == 10000 && Pow10(6) == 1000000;
    DigitsRoundTrip(t.year, 4);
    DigitsRoundTrip(t.month, 2);
    DigitsRoundTrip(t.day, 2);
    DigitsRoundTrip(t.hour, 2);
    DigitsRoundTrip(t.minute, 2);
    DigitsRoundTrip(t.second, 2);
    DigitsRoundTrip(t.microsecond, 6);
    IsoFormatLayout(t);
  }
}
