/** The "HH:MM" and "YYYY-MM-DD" formats the availability entities accept, and how their
    string order relates to the time of day they name. */
module ClockTimes {
  import opened Text
  import opened DateUtils

  /** `^([0-1][0-9]|2[0-3]):[0-5][0-9]$`, one alternative per hour range. */
  predicate MatchesTimePattern(t: string) {
    |t| == 5
    && (('0' <= t[0] <= '1' && IsDigit(t[1])) || (t[0] == '2' && '0' <= t[1] <= '3'))
    && t[2] == ':' && '0' <= t[3] <= '5' && IsDigit(t[4])
  }

  /** The pattern accepts exactly the clock times 00:00 to 23:59. */
  lemma TimePatternIsClockTime(t: string)
    ensures MatchesTimePattern(t) <==> IsClockTime(t)
  {
  }

  /** `^\d{4}-\d{2}-\d{2}$`. */
  predicate IsDateString(s: string) {
    |s| == 10
    && IsDigit(s[0]) && IsDigit(s[1]) && IsDigit(s[2]) && IsDigit(s[3]) && s[4] == '-'
    && IsDigit(s[5]) && IsDigit(s[6]) && s[7] == '-' && IsDigit(s[8]) && IsDigit(s[9])
  }

  /** Minutes since midnight of a clock time. */
  function ClockMinutes(t: string): (m: int)
    requires IsClockTime(t)
    ensures 0 <= m < 24 * 60
  {
    HoursField(t) * 60 + MinutesField(t)
  }

  /** For clock times, comparing the strings compares the times of day. */
  lemma ClockOrder(a: string, b: string)
    ensures IsClockTime(a) && IsClockTime(b) ==>
              (StringLess(a, b) <==> ClockMinutes(a) < ClockMinutes(b))
  {
    if IsClockTime(a) && IsClockTime(b) {
      var a1, b1 := a[1..], b[1..];
      var a2, b2 := a1[1..], b1[1..];
      var a3, b3 := a2[1..], b2[1..];
      var a4, b4 := a3[1..], b3[1..];
      assert a4[1..] == [] && b4[1..] == [];
      assert StringLess(a4, b4) <==> a[4] < b[4];
      assert StringLess(a3, b3) <==> a[3] < b[3] || (a[3] == b[3] && a[4] < b[4]);
      assert StringLess(a2, b2) <==> a[3] < b[3] || (a[3] == b[3] && a[4] < b[4]);
      assert StringLess(a1, b1) <==> a[1] < b[1] || (a[1] == b[1] && StringLess(a2, b2));
      assert StringLess(a, b) <==> a[0] < b[0] || (a[0] == b[0] && StringLess(a1, b1));
    }
  }

  /** `parseDateTime(date, t)` for a clock time: the instant `t` names on `date`. */
  function At(date: int, t: string): (r: int)
    requires IsClockTime(t)
    ensures r == date * MsPerDay + ClockMinutes(t) * MsPerMinute
    ensures DayOf(r) == date && ExtractTime(r) == t
  {
    ParseDateTime(date, t).value
  }

  /** Clock times in string order name instants in the same order on any day. */
  lemma AtOrder(date: int, a: string, b: string)
    requires IsClockTime(a) && IsClockTime(b)
    ensures StringLess(a, b) <==> At(date, a) < At(date, b)
  {
    ClockOrder(a, b);
  }
}
