/** `time.strftime("%Y-%m-%d %H:%M:%S", time.gmtime(t))`: the calendar
    decomposition of a number of seconds since 1970-01-01 00:00:00 UTC in the
    proleptic Gregorian calendar, and its rendering with zero-padded fields. */
module UtcTime {
  import opened Builtins

  const SecondsPerDay: nat := 86400
  const EpochYear: int := 1970

  datatype DateTime = DateTime(year: int, month: int, day: int, hour: int, minute: int, second: int)

  predicate IsLeap(y: int) {
    y % 4 == 0 && (y % 100 != 0 || y % 400 == 0)
  }

  function DaysInYear(y: int): nat {
    if IsLeap(y) then 366 else 365
  }

  function DaysInMonth(y: int, m: int): nat
    requires 1 <= m <= 12
  {
    if m == 2 then (if IsLeap(y) then 29 else 28)
    else if m == 4 || m == 6 || m == 9 || m == 11 then 30
    else 31
  }

  /** Days in the years `EpochYear` .. `y - 1`. */
  function DaysBeforeYear(y: int): nat
    requires y >= EpochYear
    decreases y - EpochYear
  {
    if y == EpochYear then 0 else DaysBeforeYear(y - 1) + DaysInYear(y - 1)
  }

  /** Days in the months 1 .. `m - 1` of year `y`. */
  function DaysBeforeMonth(y: int, m: int): (n: nat)
    requires 1 <= m <= 13
    ensures m == 13 ==> n == DaysInYear(y)
  {
    var table := [0, 31, 59, 90, 120, 151, 181, 212, 243, 273, 304, 334, 365];
    table[m - 1] + (if m > 2 && IsLeap(y) then 1 else 0)
  }

  /** Each month starts where the one before it ends. */
  lemma MonthStep(y: int, m: int)
    requires 1 <= m <= 12
    ensures DaysBeforeMonth(y, m) + DaysInMonth(y, m) == DaysBeforeMonth(y, m + 1)
  {
  }

  /** A calendar instant that `gmtime` can produce for a non-negative time. */
  predicate ValidDateTime(d: DateTime) {
    d.year >= EpochYear && 1 <= d.month <= 12 && 1 <= d.day <= DaysInMonth(d.year, d.month) &&
    0 <= d.hour < 24 && 0 <= d.minute < 60 && 0 <= d.second < 60
  }

  /** Seconds since the epoch of a calendar instant (what `calendar.timegm` computes). */
  function EpochSeconds(d: DateTime): nat
    requires ValidDateTime(d)
  {
    var days := DaysBeforeYear(d.year) + DaysBeforeMonth(d.year, d.month) + d.day - 1;
    days * SecondsPerDay + d.hour * 3600 + d.minute * 60 + d.second
  }

  /** The year holding day number `days` counted from the start of year `y`,
      and the day's index within that year. */
  function YearOf(days: nat, y: int): (r: (int, nat))
    requires y >= EpochYear
    ensures r.0 >= y && r.1 < DaysInYear(r.0)
    ensures DaysBeforeYear(r.0) + r.1 == DaysBeforeYear(y) + days
    decreases days
  {
    if days < DaysInYear(y) then (y, days) else YearOf(days - DaysInYear(y), y + 1)
  }

  /** The month holding day `doy` of year `y`, counted from the start of month
      `m`, and the day's index within that month. */
  function MonthOf(doy: nat, y: int, m: int): (r: (int, nat))
    requires 1 <= m <= 12 && DaysBeforeMonth(y, m) + doy < DaysInYear(y)
    ensures m <= r.0 <= 12 && r.1 < DaysInMonth(y, r.0)
    ensures DaysBeforeMonth(y, r.0) + r.1 == DaysBeforeMonth(y, m) + doy
    decreases 12 - m
  {
    if doy < DaysInMonth(y, m) then (m, doy)
    else
      MonthStep(y, m);
      MonthOf(doy - DaysInMonth(y, m), y, m + 1)
  }

  /** `time.gmtime(t)`: the one valid calendar instant `t` seconds after the epoch. */
  function GmTime(t: nat): (d: DateTime)
    ensures ValidDateTime(d) && EpochSeconds(d) == t
  {
    var days := t / SecondsPerDay;
    var secs := t % SecondsPerDay;
    var (y, doy) := YearOf(days, EpochYear);
    var (m, dom) := MonthOf(doy, y, 1);
    DateTime(y, m, dom + 1, secs / 3600, secs % 3600 / 60, secs % 60)
  }

  /** Splitting seconds into whole days and the time of day, and the time
      of day into hours, minutes and seconds, recovers the parts. */
  lemma DayAndClock(days: nat, hour: int, minute: int, second: int)
    requires 0 <= hour < 24 && 0 <= minute < 60 && 0 <= second < 60
    ensures var secs := hour * 3600 + minute * 60 + second;
      0 <= secs < SecondsPerDay &&
      (days * SecondsPerDay + secs) / SecondsPerDay == days && (days * SecondsPerDay + secs) % SecondsPerDay == secs &&
      secs / 3600 == hour && secs % 3600 / 60 == minute && secs % 60 == second
  {
    var secs := hour * 3600 + minute * 60 + second;
    var rest := minute * 60 + second;
    assert 0 <= rest < 3600;
    DivModUnique(days * SecondsPerDay + secs, SecondsPerDay, days, secs);
    DivModUnique(secs, 3600, hour, rest);
    DivModUnique(rest, 60, minute, second);
    DivModUnique(secs, 60, hour * 60 + minute, second);
  }

  /** `q` and `r` are the quotient and remainder of `n` by `d`. */
  lemma DivModUnique(n: int, d: int, q: int, r: int)
    requires d > 0 && 0 <= r < d && n == q * d + r
    ensures n / d == q && n % d == r
  {
    var q', r' := n / d, n % d;
    assert (q' - q) * d == r - r';
    assert (q - q') * d == r' - r;
    MulAtLeast(q' - q, d);
    MulAtLeast(q - q', d);
  }

  lemma MulAtLeast(k: int, d: int)
    ensures k >= 1 && d >= 0 ==> k * d >= d
  {
    if k >= 1 && d >= 0 {
      assert k * d == (k - 1) * d + d;
      assert (k - 1) * d >= 0;
    }
  }

  lemma {:induction false} YearOfStart(y0: int, y: int, r: nat)
    requires EpochYear <= y0 <= y && r < DaysInYear(y)
    ensures DaysBeforeYear(y) >= DaysBeforeYear(y0)
    ensures YearOf(DaysBeforeYear(y) - DaysBeforeYear(y0) + r, y0) == (y, r)
    decreases y - y0
  {
    if y0 < y {
      YearOfStart(y0 + 1, y, r);
      DaysBeforeYearMonotone(y0 + 1, y);
    }
  }

  lemma {:induction false} DaysBeforeYearMonotone(a: int, b: int)
    requires EpochYear <= a <= b
    ensures DaysBeforeYear(a) <= DaysBeforeYear(b)
    decreases b - a
  {
    if a < b {
      DaysBeforeYearMonotone(a, b - 1);
    }
  }

  lemma {:induction false} MonthOfStart(y: int, m0: int, m: int, r: nat)
    requires 1 <= m0 <= m <= 12 && r < DaysInMonth(y, m)
    ensures DaysBeforeMonth(y, m) >= DaysBeforeMonth(y, m0)
    ensures DaysBeforeMonth(y, m0) + (DaysBeforeMonth(y, m) - DaysBeforeMonth(y, m0) + r) < DaysInYear(y)
    ensures MonthOf(DaysBeforeMonth(y, m) - DaysBeforeMonth(y, m0) + r, y, m0) == (m, r)
    decreases m - m0
  {
    MonthsFit(y, m);
    if m0 < m {
      MonthStep(y, m0);
      MonthOfStart(y, m0 + 1, m, r);
    }
  }

  /** The months up to and including `m` fit in the year. */
  lemma MonthsFit(y: int, m: int)
    requires 1 <= m <= 12
    ensures DaysBeforeMonth(y, m) + DaysInMonth(y, m) <= DaysInYear(y)
  {
  }

  /** `gmtime` inverts `timegm`: a valid calendar instant is recovered from its
      epoch seconds, so `GmTime(t)` is the only valid instant with those seconds. */
  lemma GmTimeOfEpochSeconds(d: DateTime)
    requires ValidDateTime(d)
    ensures GmTime(EpochSeconds(d)) == d
  {
    var days := DaysBeforeYear(d.year) + DaysBeforeMonth(d.year, d.month) + d.day - 1;
    var secs := d.hour * 3600 + d.minute * 60 + d.second;
    var t := EpochSeconds(d);
    DayAndClock(days, d.hour, d.minute, d.second);
    assert t / SecondsPerDay == days && t % SecondsPerDay == secs;
    var doy := DaysBeforeMonth(d.year, d.month) + d.day - 1;
    MonthsFit(d.year, d.month);
    YearOfStart(EpochYear, d.year, doy);
    MonthOfStart(d.year, 1, d.month, d.day - 1);
  }

  // ---------------------------------------------------------------------------
  // Rendering

  /** `"%0*d" % (w, n)`: the decimal digits of `n`, left-padded with zeros to
      at least `w` characters (as strftime pads `%Y`, `%m`, `%d`, ...). */
  function Pad(n: nat, w: nat): (s: string)
    ensures AllDigits(s) && DigitsValue(s) == n
    ensures |s| >= w
    ensures n < Pow10(w) && w > 0 ==> |s| == w
  {
    var d := Decimal(n);
    DecimalRoundTrip(n);
    assert n < Pow10(w) ==> |d| <= if w == 0 then 1 else w by {
      if n < Pow10(w) { DecimalLength(n, w); }
    }
    LeadingZerosValue(if |d| >= w then 0 else w - |d|, d);
    assert seq(0, _ => '0') + d == d;
    if |d| >= w then d else seq(w - |d|, _ => '0') + d
  }

  /** `get_formatted_time(t)` for a non-negative whole number of seconds:
      "YYYY-MM-DD HH:MM:SS" in UTC. */
  function FormatTime(t: nat): (r: string)
    ensures |r| >= 19
    ensures GmTime(t).year < 10000 ==> |r| == 19
  {
    var d := GmTime(t);
    Pad(d.year as nat, 4) + "-" + Pad(d.month as nat, 2) + "-" + Pad(d.day as nat, 2) + " " +
    Pad(d.hour as nat, 2) + ":" + Pad(d.minute as nat, 2) + ":" + Pad(d.second as nat, 2)
  }

  /** Reads "YYYY-MM-DD HH:MM:SS" back into its six numbers; `None` for a
      string of any other shape. */
  function ParseTime(s: string): Option<DateTime> {
    if |s| == 19 && s[4] == '-' && s[7] == '-' && s[10] == ' ' && s[13] == ':' && s[16] == ':' &&
       AllDigits(s[0..4]) && AllDigits(s[5..7]) && AllDigits(s[8..10]) &&
       AllDigits(s[11..13]) && AllDigits(s[14..16]) && AllDigits(s[17..19])
    then Some(DateTime(DigitsValue(s[0..4]), DigitsValue(s[5..7]), DigitsValue(s[8..10]),
                       DigitsValue(s[11..13]), DigitsValue(s[14..16]), DigitsValue(s[17..19])))
    else None
  }

  /** A slice that lies inside the left operand of a concatenation. */
  lemma SliceLeft(a: string, b: string, i: nat, j: nat)
    requires i <= j <= |a|
    ensures (a + b)[i..j] == a[i..j]
  {
    assert forall k :: 0 <= k < j - i ==> (a + b)[i..j][k] == a[i..j][k];
  }

  /** Where the six fields sit in the joined string. */
  lemma JoinedFields(y: string, mo: string, da: string, h: string, mi: string, se: string)
    requires |y| == 4 && |mo| == 2 && |da| == 2 && |h| == 2 && |mi| == 2 && |se| == 2
    ensures var s := y + "-" + mo + "-" + da + " " + h + ":" + mi + ":" + se;
      |s| == 19 && s[4] == '-' && s[7] == '-' && s[10] == ' ' && s[13] == ':' && s[16] == ':' &&
      s[0..4] == y && s[5..7] == mo && s[8..10] == da && s[11..13] == h && s[14..16] == mi && s[17..19] == se
  {
    var p1 := y + "-";
    var p2 := p1 + mo;
    var p3 := p2 + "-";
    var p4 := p3 + da;
    var p5 := p4 + " ";
    var p6 := p5 + h;
    var p7 := p6 + ":";
    var p8 := p7 + mi;
    var p9 := p8 + ":";
    var s := p9 + se;
    assert s == y + "-" + mo + "-" + da + " " + h + ":" + mi + ":" + se;
    // Each field occupies the end of its own prefix, and later parts only extend it.
    assert p8[14..16] == mi;
    SliceLeft(p8, ":", 14, 16);
    SliceLeft(p9, se, 14, 16);
    assert p6[11..13] == h;
    SliceLeft(p6, ":", 11, 13);
    SliceLeft(p7, mi, 11, 13);
    SliceLeft(p8, ":", 11, 13);
    SliceLeft(p9, se, 11, 13);
    assert p4[8..10] == da;
    SliceLeft(p4, " ", 8, 10);
    SliceLeft(p5, h, 8, 10);
    SliceLeft(p6, ":", 8, 10);
    SliceLeft(p7, mi, 8, 10);
    SliceLeft(p8, ":", 8, 10);
    SliceLeft(p9, se, 8, 10);
    assert p2[5..7] == mo;
    SliceLeft(p2, "-", 5, 7);
    SliceLeft(p3, da, 5, 7);
    SliceLeft(p4, " ", 5, 7);
    SliceLeft(p5, h, 5, 7);
    SliceLeft(p6, ":", 5, 7);
    SliceLeft(p7, mi, 5, 7);
    SliceLeft(p8, ":", 5, 7);
    SliceLeft(p9, se, 5, 7);
    assert s[..4] == y by {
      assert s[..4] == s[..|y|];
    }
    assert s[4] == '-' && s[7] == '-' && s[10] == ' ';
    assert s[13] == ':' && s[16] == ':';
  }

  /** Six digit fields of widths 4, 2, 2, 2, 2, 2 joined by the separators
      are read back field by field. */
  lemma ParseJoined(y: string, mo: string, da: string, h: string, mi: string, se: string)
    requires |y| == 4 && |mo| == 2 && |da| == 2 && |h| == 2 && |mi| == 2 && |se| == 2
    requires AllDigits(y) && AllDigits(mo) && AllDigits(da) && AllDigits(h) && AllDigits(mi) && AllDigits(se)
    ensures ParseTime(y + "-" + mo + "-" + da + " " + h + ":" + mi + ":" + se) ==
      Some(DateTime(DigitsValue(y), DigitsValue(mo), DigitsValue(da), DigitsValue(h), DigitsValue(mi), DigitsValue(se)))
  {
    JoinedFields(y, mo, da, h, mi, se);
    var s := y + "-" + mo + "-" + da + " " + h + ":" + mi + ":" + se;
    assert AllDigits(s[0..4]) && AllDigits(s[5..7]) && AllDigits(s[8..10]);
    assert AllDigits(s[11..13]) && AllDigits(s[14..16]) && AllDigits(s[17..19]);
  }

  /** Up to year 9999 the rendering has the "YYYY-MM-DD HH:MM:SS" shape, and
      reading its fields back yields the instant `gmtime` gives, whose epoch
      seconds are `t` again. */
  lemma FormatTimeRoundTrip(t: nat)
    requires GmTime(t).year < 10000
    ensures ParseTime(FormatTime(t)) == Some(GmTime(t))
    ensures EpochSeconds(ParseTime(FormatTime(t)).value) == t
  {
    var d := GmTime(t);
    assert d.year as nat < Pow10(4) && d.month as nat < Pow10(2) && d.day as nat < Pow10(2);
    assert d.hour as nat < Pow10(2) && d.minute as nat < Pow10(2) && d.second as nat < Pow10(2);
    ParseJoined(Pad(d.year as nat, 4), Pad(d.month as nat, 2), Pad(d.day as nat, 2),
                Pad(d.hour as nat, 2), Pad(d.minute as nat, 2), Pad(d.second as nat, 2));
  }
}
