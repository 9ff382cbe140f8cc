/**
 * Timestamps as `datetime.isoformat()` writes them and
 * `datetime.fromisoformat()` reads them back.
 */
module DateTime {
  import opened Wrappers
  import opened Text

  /** A `datetime`: calendar fields plus an optional UTC offset in whole
      minutes east of UTC (`None` for a naive value). */
  datatype DateTime = DateTime(
    year: int, month: int, day: int,
    hour: int, minute: int, second: int, microsecond: int,
    offset: Option<int>)

  predicate IsLeapYear(y: int) {
    y % 4 == 0 && (y % 100 != 0 || y % 400 == 0)
  }

  function DaysInMonth(y: int, m: int): int
    requires 1 <= m <= 12
  {
    if m == 2 then (if IsLeapYear(y) then 29 else 28)
    else if m == 4 || m == 6 || m == 9 || m == 11 then 30
    else 31
  }

  /** The ranges the `datetime` constructor enforces; offsets lie strictly
      within one day either side of UTC. */
  predicate Valid(t: DateTime) {
    && 1 <= t.year <= 9999
    && 1 <= t.month <= 12
    && 1 <= t.day <= DaysInMonth(t.year, t.month)
    && 0 <= t.hour < 24
    && 0 <= t.minute < 60
    && 0 <= t.second < 60
    && 0 <= t.microsecond < 1000000
    && (t.offset.None? || -1440 < t.offset.value < 1440)
  }

  type Timestamp = t: DateTime | Valid(t) witness DateTime(1, 1, 1, 0, 0, 0, 0, None)

  // ---------------------------------------------------------------------
  // isoformat()
  // ---------------------------------------------------------------------

  /** `+HH:MM` / `-HH:MM` for an offset in minutes. */
  function FormatOffset(o: int): (r: string)
    requires -1440 < o < 1440
    ensures |r| == 6 && (r[0] == '+' || r[0] == '-')
  {
    var a := if o < 0 then -o else o;
    [if o < 0 then '-' else '+'] + (PadDigits(a / 60, 2) + ([':'] + PadDigits(a % 60, 2)))
  }

  /** `.ffffff` when there are microseconds, nothing otherwise. */
  function FormatFraction(us: nat): (r: string)
    requires us < 1000000
    ensures r == [] || (|r| == 7 && r[0] == '.')
  {
    if us != 0 then ['.'] + PadDigits(us, 6) else []
  }

  function FormatZone(offset: Option<int>): (r: string)
    requires offset.None? || -1440 < offset.value < 1440
    ensures r == [] || (|r| == 6 && (r[0] == '+' || r[0] == '-'))
  {
    match offset
    case None => []
    case Some(o) => FormatOffset(o)
  }

  /** The date half, `YYYY-MM-DD`. */
  function FormatDate(year: nat, month: nat, day: nat): (r: string)
    requires year < 10000 && month < 100 && day < 100
    ensures |r| == 10 && 'Z' !in r
  {
    DigitsHaveNoZ(PadDigits(year, 4));
    DigitsHaveNoZ(PadDigits(month, 2));
    DigitsHaveNoZ(PadDigits(day, 2));
    PadDigits(year, 4) + (['-'] + (PadDigits(month, 2) + (['-'] + PadDigits(day, 2))))
  }

  /** The time half, `HH:MM:SS[.ffffff][+HH:MM]`. */
  function FormatTime(hour: nat, minute: nat, second: nat, us: nat, offset: Option<int>): (r: string)
    requires hour < 100 && minute < 100 && second < 100 && us < 1000000
    requires offset.None? || -1440 < offset.value < 1440
    ensures |r| >= 8 && 'Z' !in r
  {
    var zone := FormatZone(offset);
    var fraction := FormatFraction(us);
    DigitsHaveNoZ(PadDigits(hour, 2));
    DigitsHaveNoZ(PadDigits(minute, 2));
    DigitsHaveNoZ(PadDigits(second, 2));
    assert 'Z' !in fraction by {
      if us != 0 {
        DigitsHaveNoZ(PadDigits(us, 6));
        assert fraction == ['.'] + PadDigits(us, 6);
      }
    }
    assert 'Z' !in zone by {
      if offset.Some? {
        var o := offset.value;
        var a := if o < 0 then -o else o;
        DigitsHaveNoZ(PadDigits(a / 60, 2));
        DigitsHaveNoZ(PadDigits(a % 60, 2));
      }
    }
    PadDigits(hour, 2) + ([':'] + (PadDigits(minute, 2) + ([':'] + (PadDigits(second, 2) + (fraction + zone)))))
  }

  /** `datetime.isoformat()`: `YYYY-MM-DDTHH:MM:SS[.ffffff][+HH:MM]`.
      It never contains the letter `Z`, and is never empty. */
  function Format(t: Timestamp): (r: string)
    ensures |r| >= 19
    ensures 'Z' !in r
  {
    FormatDate(t.year, t.month, t.day) + (['T'] +
      FormatTime(t.hour, t.minute, t.second, t.microsecond, t.offset))
  }

  lemma {:induction false} DigitsHaveNoZ(s: string)
    requires AllDigits(s)
    ensures 'Z' !in s
  {
  }

  // ---------------------------------------------------------------------
  // fromisoformat()
  // ---------------------------------------------------------------------

  /** Read exactly `w` leading digits; the value and what follows. */
  function TakeDigits(s: string, w: nat): Option<(nat, string)>
  {
    if |s| >= w && AllDigits(s[..w]) then Some((DigitsValue(s[..w]), s[w..])) else None
  }

  /** Read the expected character `c`; what follows. */
  function TakeChar(s: string, c: char): Option<string>
  {
    if |s| >= 1 && s[0] == c then Some(s[1..]) else None
  }

  /** Read the date/time separator, which may be any single character. */
  function TakeAny(s: string): Option<string>
  {
    if |s| >= 1 then Some(s[1..]) else None
  }

  /** An optional fraction of a second, `.fff` (milliseconds) or
      `.ffffff` (microseconds); the microseconds and what follows. */
  function TakeFraction(s: string): Option<(nat, string)>
  {
    if |s| >= 1 && s[0] == '.' then
      if |s| >= 7 && AllDigits(s[1..7]) then Some((DigitsValue(s[1..7]), s[7..]))
      else if |s| >= 4 && AllDigits(s[1..4]) then Some((DigitsValue(s[1..4]) * 1000, s[4..]))
      else None
    else Some((0, s))
  }

  /** The whole remainder as a zone: nothing (naive), `Z` (UTC), or
      `+HH:MM` / `-HH:MM` strictly within a day. */
  function ParseZone(s: string): Option<Option<int>>
  {
    if s == [] then Some(None)
    else if s == "Z" then Some(Some(0))
    else if |s| == 6 && (s[0] == '+' || s[0] == '-') && AllDigits(s[1..3]) && s[3] == ':' && AllDigits(s[4..6]) then
      var hh := DigitsValue(s[1..3]);
      var mm := DigitsValue(s[4..6]);
      if hh < 24 && mm < 60 then Some(Some((if s[0] == '-' then -1 else 1) * (hh * 60 + mm))) else None
    else None
  }

  /** The date half: year, month, day and what follows. */
  function ParseDate(s: string): Option<(nat, nat, nat, string)>
  {
    var year :- TakeDigits(s, 4);
    var s1 :- TakeChar(year.1, '-');
    var month :- TakeDigits(s1, 2);
    var s2 :- TakeChar(month.1, '-');
    var day :- TakeDigits(s2, 2);
    Some((year.0, month.0, day.0, day.1))
  }

  /** The time half, to the end of the text: hour, minute, second,
      microseconds and zone. */
  function ParseTime(s: string): Option<(nat, nat, nat, nat, Option<int>)>
  {
    var hour :- TakeDigits(s, 2);
    var s4 :- TakeChar(hour.1, ':');
    var minute :- TakeDigits(s4, 2);
    var s5 :- TakeChar(minute.1, ':');
    var second :- TakeDigits(s5, 2);
    var fraction :- TakeFraction(second.1);
    var zone :- ParseZone(fraction.1);
    Some((hour.0, minute.0, second.0, fraction.0, zone))
  }

  /**
   * `datetime.fromisoformat()` on the text `isoformat()` writes:
   * `YYYY-MM-DD`, one separator character, `HH:MM:SS`, an optional 3- or
   * 6-digit fraction, then nothing, `Z` or `+HH:MM`/`-HH:MM`. Any other
   * text gives `None`, including forms Python accepts: a date alone, a
   * time of `HH` or `HH:MM`, other fraction widths, and offsets with
   * seconds or without the colon. Whatever it accepts is a real calendar
   * date and time.
   */
  function Parse(s: string): Option<Timestamp>
  {
    var date :- ParseDate(s);
    var s3 :- TakeAny(date.3);
    var time :- ParseTime(s3);
    var t := DateTime(date.0, date.1, date.2, time.0, time.1, time.2, time.3, time.4);
    if Valid(t) then Some(t) else None
  }

  lemma {:induction false} TakeDigitsPadded(n: nat, w: nat, rest: string)
    requires n < Pow10(w)
    ensures TakeDigits(PadDigits(n, w) + rest, w) == Some((n, rest))
  {
    var s := PadDigits(n, w) + rest;
    assert s[..w] == PadDigits(n, w);
    PadDigitsValue(n, w);
  }

  lemma {:induction false} ParseZoneFormat(offset: Option<int>)
    requires offset.None? || -1440 < offset.value < 1440
    ensures ParseZone(FormatZone(offset)) == Some(offset)
  {
    if offset.Some? {
      ParseOffsetFormat(offset.value);
    }
  }

  lemma {:induction false} ParseOffsetFormat(o: int)
    requires -1440 < o < 1440
    ensures ParseZone(FormatOffset(o)) == Some(Some(o))
  {
    var a := if o < 0 then -o else o;
    var hh := a / 60;
    var mm := a % 60;
    var z := FormatOffset(o);
    assert z == [if o < 0 then '-' else '+'] + (PadDigits(hh, 2) + ([':'] + PadDigits(mm, 2)));
    assert z[1..3] == PadDigits(hh, 2);
    assert z[4..6] == PadDigits(mm, 2);
    PadDigitsValue(hh, 2);
    PadDigitsValue(mm, 2);
    OffsetMinutes(o);
  }

  /** An offset is its sign times its hours and minutes. */
  lemma {:induction false} OffsetMinutes(o: int)
    requires -1440 < o < 1440
    ensures var a := if o < 0 then -o else o;
      a / 60 < 24 && (if o < 0 then -1 else 1) * (a / 60 * 60 + a % 60) == o
  {
  }

  lemma {:induction false} TakeFractionFormat(us: nat, zone: string)
    requires us < 1000000
    requires zone == [] || zone[0] == '+' || zone[0] == '-'
    ensures TakeFraction(FormatFraction(us) + zone) == Some((us, zone))
  {
    if us != 0 {
      var s := FormatFraction(us) + zone;
      assert s[1..7] == PadDigits(us, 6);
      assert s[7..] == zone;
      PadDigitsValue(us, 6);
    } else {
      assert FormatFraction(us) + zone == zone;
    }
  }

  lemma {:induction false} ParseDateFormat(year: nat, month: nat, day: nat, rest: string)
    requires year < 10000 && month < 100 && day < 100
    ensures ParseDate(FormatDate(year, month, day) + rest) == Some((year, month, day, rest))
  {
    var r2 := PadDigits(day, 2) + rest;
    var r1 := ['-'] + r2;
    var r0 := ['-'] + (PadDigits(month, 2) + r1);
    assert FormatDate(year, month, day) + rest == PadDigits(year, 4) + r0;
    TakeDigitsPadded(year, 4, r0);
    assert r0[1..] == PadDigits(month, 2) + r1;
    TakeDigitsPadded(month, 2, r1);
    assert r1[1..] == r2;
    TakeDigitsPadded(day, 2, rest);
  }

  lemma {:induction false} ParseTimeFormat(hour: nat, minute: nat, second: nat, us: nat, offset: Option<int>)
    requires hour < 100 && minute < 100 && second < 100 && us < 1000000
    requires offset.None? || -1440 < offset.value < 1440
    ensures ParseTime(FormatTime(hour, minute, second, us, offset)) == Some((hour, minute, second, us, offset))
  {
    var zone := FormatZone(offset);
    var r4 := FormatFraction(us) + zone;
    var r3 := PadDigits(second, 2) + r4;
    var r2 := [':'] + r3;
    var r1 := PadDigits(minute, 2) + r2;
    var r0 := [':'] + r1;
    assert FormatTime(hour, minute, second, us, offset) == PadDigits(hour, 2) + r0;
    TakeDigitsPadded(hour, 2, r0);
    assert r0[1..] == r1;
    TakeDigitsPadded(minute, 2, r2);
    assert r2[1..] == r3;
    TakeDigitsPadded(second, 2, r4);
    TakeFractionFormat(us, zone);
    ParseZoneFormat(offset);
  }

  /** `fromisoformat(isoformat(t)) == t`. */
  lemma {:induction false} ParseFormat(t: Timestamp)
    ensures Parse(Format(t)) == Some(t)
  {
    var time := FormatTime(t.hour, t.minute, t.second, t.microsecond, t.offset);
    ParseDateFormat(t.year, t.month, t.day, ['T'] + time);
    assert (['T'] + time)[1..] == time;
    ParseTimeFormat(t.hour, t.minute, t.second, t.microsecond, t.offset);
  }
}
