/** Instants, clock times and interval arithmetic of the booking API
    (apps/api/src/application/utils/date.utils.ts).

    Instants are integer milliseconds since the Unix epoch, in UTC; the booking API passes them
    around as ISO-8601 strings. A calendar date "YYYY-MM-DD" is its day number since the epoch,
    so its UTC midnight is `date * MsPerDay`. */
module DateUtils {
  import opened Wrappers
  import opened Text
  import Sorting

  const MsPerMinute: int := 60000
  const MsPerHour: int := 3600000
  const MsPerDay: int := 86400000

  /** A half-open interval of instants [start, end). */
  datatype Interval = Interval(start: int, end: int)

  /** `normalizeTimestamp`: the instant with its seconds and milliseconds set to zero. */
  function NormalizeTimestamp(t: int): (r: int)
    ensures r % MsPerMinute == 0
    ensures r <= t < r + MsPerMinute
  {
    t - t % MsPerMinute
  }

  lemma NormalizeTimestampIdempotent(t: int)
    ensures NormalizeTimestamp(NormalizeTimestamp(t)) == NormalizeTimestamp(t)
  {
  }

  // ---------------------------------------------------------------- clock times

  /** Two digits, a colon and two digits: the shape `time.split(':').map(Number)` reads. */
  predicate IsDigitPair(t: string) {
    |t| == 5 && IsDigit(t[0]) && IsDigit(t[1]) && t[2] == ':' && IsDigit(t[3]) && IsDigit(t[4])
  }

  function HoursField(t: string): nat
    requires IsDigitPair(t)
  {
    DigitValue(t[0]) * 10 + DigitValue(t[1])
  }

  function MinutesField(t: string): nat
    requires IsDigitPair(t)
  {
    DigitValue(t[3]) * 10 + DigitValue(t[4])
  }

  /** A valid "HH:MM" clock time: hour 00-23 and minute 00-59. */
  predicate IsClockTime(t: string) {
    IsDigitPair(t) && HoursField(t) <= 23 && MinutesField(t) <= 59
  }

  /** The UTC hour of an instant (`getUTCHours`). */
  function HourOf(t: int): (h: int)
    ensures 0 <= h < 24
  {
    (t % MsPerDay) / MsPerHour
  }

  /** The UTC minute of an instant (`getUTCMinutes`). */
  function MinuteOf(t: int): (m: int)
    ensures 0 <= m < 60
  {
    (t % MsPerHour) / MsPerMinute
  }

  /** The day number of an instant. */
  function DayOf(t: int): int {
    t / MsPerDay
  }

  /** `extractTime`: the zero-padded UTC "HH:MM" of an instant. */
  function ExtractTime(t: int): (r: string)
    ensures IsClockTime(r)
    ensures HoursField(r) == HourOf(t) && MinutesField(r) == MinuteOf(t)
  {
    Pad2(HourOf(t)) + ":" + Pad2(MinuteOf(t))
  }

  lemma DivModDay(a: int, q: int, r: int)
    requires 0 <= r < 86400000 && a == q * 86400000 + r
    ensures a / MsPerDay == q && a % MsPerDay == r
  {
  }

  lemma DivModHour(a: int, q: int, r: int)
    requires 0 <= r < 3600000 && a == q * 3600000 + r
    ensures a / MsPerHour == q && a % MsPerHour == r
  {
  }

  lemma DivModMinute(a: int, q: int, r: int)
    requires 0 <= r < 60000 && a == q * 60000 + r
    ensures a / MsPerMinute == q && a % MsPerMinute == r
  {
  }

  /** `parseDateTime`: the instant on day `date` at the given hours and minutes (UTC), for a
      time of the form "DD:DD"; `setUTCHours` carries out-of-range fields into the next unit. */
  function ParseDateTime(date: int, time: string): (r: Option<int>)
    ensures r.Some? <==> IsDigitPair(time)
    ensures IsClockTime(time) ==> r.Some? && DayOf(r.value) == date && ExtractTime(r.value) == time
  {
    if IsDigitPair(time) then
      var h, m := HoursField(time), MinutesField(time);
      var t := date * MsPerDay + h * MsPerHour + m * MsPerMinute;
      ClockTimeFields(date, h, m);
      Pad2OfDigits(time[0], time[1]);
      Pad2OfDigits(time[3], time[4]);
      assert IsClockTime(time) ==> ExtractTime(t) == time[..2] + ":" + time[3..];
      Some(t)
    else
      None
  }

  lemma ClockTimeFields(date: int, h: int, m: int)
    ensures 0 <= h <= 23 && 0 <= m <= 59 ==>
      var t := date * MsPerDay + h * MsPerHour + m * MsPerMinute;
      DayOf(t) == date && HourOf(t) == h && MinuteOf(t) == m
  {
    if 0 <= h <= 23 && 0 <= m <= 59 {
      ClockTimeFieldsInRange(date, h, m);
    }
  }

  lemma ClockTimeFieldsInRange(date: int, h: int, m: int)
    requires 0 <= h <= 23 && 0 <= m <= 59
    ensures var t := date * MsPerDay + h * MsPerHour + m * MsPerMinute;
      DayOf(t) == date && HourOf(t) == h && MinuteOf(t) == m
  {
    var t := date * MsPerDay + h * MsPerHour + m * MsPerMinute;
    DivModDay(t, date, h * MsPerHour + m * MsPerMinute);
    DivModHour(h * MsPerHour + m * MsPerMinute, h, m * MsPerMinute);
    DivModHour(t, date * 24 + h, m * MsPerMinute);
    DivModMinute(m * MsPerMinute, m, 0);
  }

  /** `extractTime(parseDateTime(d, t)) == t` for every valid "HH:MM" `t`. */
  lemma ExtractParseRoundTrip(date: int, time: string)
    requires IsClockTime(time)
    ensures ParseDateTime(date, time).Some?
    ensures ExtractTime(ParseDateTime(date, time).value) == time
  {
  }

  /** Re-anchoring the clock time of instant `t` onto day `date`. */
  lemma ParseExtracted(date: int, t: int)
    ensures ParseDateTime(date, ExtractTime(t))
         == Some(date * MsPerDay + HourOf(t) * MsPerHour + MinuteOf(t) * MsPerMinute)
  {
  }

  // ---------------------------------------------------------------- overlap

  /** `intervalsOverlap`: strict, so intervals that only touch do not overlap. */
  predicate Overlaps(a: Interval, b: Interval) {
    a.start < b.end && a.end > b.start
  }

  lemma OverlapsSymmetric(a: Interval, b: Interval)
    ensures Overlaps(a, b) <==> Overlaps(b, a)
  {
  }

  lemma TouchingIntervalsDoNotOverlap(a: Interval, b: Interval)
    requires a.end == b.start
    ensures !Overlaps(a, b) && !Overlaps(b, a)
  {
  }

  /** The instant p lies in [iv.start, iv.end). */
  predicate Covers(iv: Interval, p: int) {
    iv.start <= p < iv.end
  }

  /** Some interval of s covers p. */
  predicate Covered(s: seq<Interval>, p: int) {
    exists iv :: iv in s && Covers(iv, p)
  }

  predicate Proper(iv: Interval) { iv.start < iv.end }

  // ---------------------------------------------------------------- merge

  predicate StartsBefore(a: Interval, b: Interval) { a.start < b.start }

  lemma StartsBeforeIsStrictOrder()
    ensures Sorting.StrictOrder(StartsBefore)
  {
  }

  /** Sorted by start, ascending. */
  predicate SortedByStart(s: seq<Interval>) {
    forall i, j :: 0 <= i < j < |s| ==> s[i].start <= s[j].start
  }

  lemma SortedByStartBridge(s: seq<Interval>)
    ensures Sorting.SortedBy(s, StartsBefore) <==> SortedByStart(s)
  {
  }

  /** The stable sort by start of `mergeIntervals`. */
  function SortByStart(s: seq<Interval>): (r: seq<Interval>)
    ensures multiset(r) == multiset(s)
    ensures SortedByStart(r)
  {
    StartsBeforeIsStrictOrder();
    Sorting.SortSorted(s, StartsBefore);
    SortedByStartBridge(Sorting.Sort(s, StartsBefore));
    Sorting.Sort(s, StartsBefore)
  }

  /** One step of the merge loop: widen the last merged interval when `cur` overlaps it,
      otherwise append `cur`. */
  function MergeStep(merged: seq<Interval>, cur: Interval): (r: seq<Interval>)
    ensures 0 < |r| <= |merged| + 1
  {
    if |merged| == 0 then [cur]
    else
      var last := merged[|merged| - 1];
      if Overlaps(last, cur) then
        merged[..|merged| - 1] + [Interval(last.start, if cur.end > last.end then cur.end else last.end)]
      else
        merged + [cur]
  }

  /** The merge loop over an already sorted sequence. */
  function MergeSorted(sorted: seq<Interval>): (r: seq<Interval>)
    ensures |r| <= |sorted|
    ensures |sorted| > 0 ==> |r| > 0
  {
    if |sorted| == 0 then []
    else MergeStep(MergeSorted(sorted[..|sorted| - 1]), sorted[|sorted| - 1])
  }

  /** `mergeIntervals`: sort by start, then merge overlapping neighbours. */
  method MergeIntervals(intervals: seq<Interval>) returns (merged: seq<Interval>)
    ensures merged == MergeSorted(SortByStart(intervals))
    ensures |merged| <= |intervals|
    ensures SortedByStart(merged)
    ensures forall p :: Covered(merged, p) <==> Covered(intervals, p)
    ensures (forall iv :: iv in intervals ==> Proper(iv)) ==> Separated(merged)
  {
    if |intervals| == 0 {
      return [];
    }
    var sorted := SortByStart(intervals);
    merged := [sorted[0]];
    assert sorted[..1] == [sorted[0]];
    var i := 1;
    while i < |sorted|
      invariant 1 <= i <= |sorted|
      invariant merged == MergeSorted(sorted[..i])
    {
      assert sorted[..i + 1][..i] == sorted[..i];
      var current := sorted[i];
      var last := merged[|merged| - 1];
      if Overlaps(last, current) {
        var newEnd := if current.end > last.end then current.end else last.end;
        merged := merged[..|merged| - 1] + [Interval(last.start, newEnd)];
      } else {
        merged := merged + [current];
      }
      i := i + 1;
    }
    assert sorted[..i] == sorted;
    MergeSortedIsSorted(sorted);
    forall p ensures Covered(merged, p) <==> Covered(intervals, p) {
      MergeIntervalsCoverage(intervals, p);
    }
    if forall iv :: iv in intervals ==> Proper(iv) {
      MergeIntervalsDisjoint(intervals);
    }
  }

  lemma SameElementsCovered(a: seq<Interval>, b: seq<Interval>, p: int)
    requires multiset(a) == multiset(b)
    ensures Covered(a, p) <==> Covered(b, p)
  {
    if Covered(a, p) {
      var iv :| iv in a && Covers(iv, p);
      assert iv in multiset(b);
    }
    if Covered(b, p) {
      var iv :| iv in b && Covers(iv, p);
      assert iv in multiset(a);
    }
  }

  /** `mergeIntervals` keeps exactly the instants its input covers. */
  lemma MergeIntervalsCoverage(intervals: seq<Interval>, p: int)
    ensures Covered(MergeSorted(SortByStart(intervals)), p) <==> Covered(intervals, p)
  {
    var sorted := SortByStart(intervals);
    MergeSortedCoverage(sorted, p);
    SameElementsCovered(sorted, intervals, p);
  }

  lemma CoveredAppend(s: seq<Interval>, x: Interval, p: int)
    ensures Covered(s + [x], p) <==> Covered(s, p) || Covers(x, p)
  {
    if Covered(s, p) {
      var iv :| iv in s && Covers(iv, p);
      assert iv in s + [x];
    }
    if Covers(x, p) {
      assert x in s + [x];
    }
  }

  lemma MergeStepCoverage(merged: seq<Interval>, cur: Interval, p: int)
    requires |merged| > 0 ==> merged[|merged| - 1].start <= cur.start
    ensures Covered(MergeStep(merged, cur), p) <==> Covered(merged, p) || Covers(cur, p)
  {
    if |merged| == 0 {
      assert MergeStep(merged, cur) == [] + [cur];
      CoveredAppend([], cur, p);
    } else {
      var n := |merged|;
      var last := merged[n - 1];
      assert merged == merged[..n - 1] + [last];
      CoveredAppend(merged[..n - 1], last, p);
      if Overlaps(last, cur) {
        var widened := Interval(last.start, if cur.end > last.end then cur.end else last.end);
        CoveredAppend(merged[..n - 1], widened, p);
        assert Covers(widened, p) <==> Covers(last, p) || Covers(cur, p);
      } else {
        CoveredAppend(merged, cur, p);
      }
    }
  }

  /** Merging a sorted sequence keeps exactly the instants it covers. */
  lemma {:induction false} MergeSortedCoverage(sorted: seq<Interval>, p: int)
    requires SortedByStart(sorted)
    ensures Covered(MergeSorted(sorted), p) <==> Covered(sorted, p)
  {
    if |sorted| > 0 {
      var prefix, cur := sorted[..|sorted| - 1], sorted[|sorted| - 1];
      assert sorted == prefix + [cur];
      MergeSortedCoverage(prefix, p);
      MergeSortedIsSorted(prefix);
      MergeStepCoverage(MergeSorted(prefix), cur, p);
      CoveredAppend(prefix, cur, p);
    }
  }

  lemma MergeStepSorted(m: seq<Interval>, cur: Interval)
    requires SortedByStart(m)
    requires forall k :: 0 <= k < |m| ==> m[k].start <= cur.start
    ensures var r := MergeStep(m, cur);
      SortedByStart(r) && forall k :: 0 <= k < |r| ==> r[k].start <= cur.start
  {
    if |m| > 0 && Overlaps(m[|m| - 1], cur) {
      var n := |m|;
      var w := Interval(m[n - 1].start, if cur.end > m[n - 1].end then cur.end else m[n - 1].end);
      var r := m[..n - 1] + [w];
      assert forall k :: 0 <= k < n ==> r[k].start == m[k].start;
      assert MergeStep(m, cur) == r;
    } else {
      assert MergeStep(m, cur) == m + [cur];
    }
  }

  /** The merged sequence is sorted by start, and no merged interval starts after the
      last input interval. */
  lemma {:induction false} MergeSortedIsSorted(sorted: seq<Interval>)
    requires SortedByStart(sorted)
    ensures SortedByStart(MergeSorted(sorted))
    ensures |sorted| > 0 ==> forall k :: 0 <= k < |MergeSorted(sorted)| ==>
      MergeSorted(sorted)[k].start <= sorted[|sorted| - 1].start
  {
    if |sorted| > 0 {
      var prefix, cur := sorted[..|sorted| - 1], sorted[|sorted| - 1];
      MergeSortedIsSorted(prefix);
      var m := MergeSorted(prefix);
      if |prefix| > 0 {
        assert prefix[|prefix| - 1].start <= cur.start;
      }
      MergeStepSorted(m, cur);
    }
  }

  /** Each interval starts at or after the previous one ends. */
  predicate Separated(s: seq<Interval>) {
    forall k :: 0 <= k < |s| - 1 ==> s[k].end <= s[k + 1].start
  }

  /** For proper intervals (start < end), each merged interval starts at or after the
      previous one ends. */
  lemma {:induction false} MergeSortedDisjoint(sorted: seq<Interval>)
    requires SortedByStart(sorted)
    requires forall iv :: iv in sorted ==> Proper(iv)
    ensures Separated(MergeSorted(sorted))
  {
    if |sorted| > 0 {
      var prefix, cur := sorted[..|sorted| - 1], sorted[|sorted| - 1];
      assert sorted == prefix + [cur];
      MergeSortedDisjoint(prefix);
      MergeSortedIsSorted(prefix);
      if |prefix| > 0 {
        assert prefix[|prefix| - 1].start <= cur.start;
      }
      MergeStepSeparated(MergeSorted(prefix), cur);
    }
  }

  lemma MergeStepSeparated(m: seq<Interval>, cur: Interval)
    requires Separated(m) && Proper(cur)
    requires forall k :: 0 <= k < |m| ==> m[k].start <= cur.start
    ensures Separated(MergeStep(m, cur))
  {
    if |m| > 0 && Overlaps(m[|m| - 1], cur) {
      var n := |m|;
      var w := Interval(m[n - 1].start, if cur.end > m[n - 1].end then cur.end else m[n - 1].end);
      var r := m[..n - 1] + [w];
      assert MergeStep(m, cur) == r;
      forall k | 0 <= k < |r| - 1 ensures r[k].end <= r[k + 1].start {
        assert r[k] == m[k];
        if k < n - 2 {
          assert r[k + 1] == m[k + 1];
        } else {
          assert r[k + 1].start == m[k + 1].start;
        }
      }
    } else {
      var r := m + [cur];
      assert MergeStep(m, cur) == r;
      forall k | 0 <= k < |r| - 1 ensures r[k].end <= r[k + 1].start {
        assert r[k] == m[k];
        if k < |m| - 1 {
          assert r[k + 1] == m[k + 1];
        } else {
          assert m[k].start <= cur.start;
        }
      }
    }
  }

  lemma MergeIntervalsDisjoint(intervals: seq<Interval>)
    requires forall iv :: iv in intervals ==> Proper(iv)
    ensures Separated(MergeSorted(SortByStart(intervals)))
  {
    var sorted := SortByStart(intervals);
    forall iv | iv in sorted ensures Proper(iv) {
      assert iv in multiset(sorted);
    }
    MergeSortedDisjoint(sorted);
  }

  // ---------------------------------------------------------------- subtract

  /** The body of the inner loop of `subtractIntervals`: what is left of `iv` once `sub` is
      taken out — `iv` itself when they do not overlap, else the part before and the part
      after `sub`, each only when non-empty. */
  function Cut(iv: Interval, sub: Interval): seq<Interval> {
    if !Overlaps(iv, sub) then [iv]
    else
      (if iv.start < sub.start then [Interval(iv.start, if sub.start < iv.end then sub.start else iv.end)] else [])
      + (if iv.end > sub.end then [Interval(if sub.end > iv.start then sub.end else iv.start, iv.end)] else [])
  }

  /** One pass of the inner loop: every remaining interval cut by `sub`, in order. */
  function CutAll(remaining: seq<Interval>, sub: Interval): seq<Interval> {
    if |remaining| == 0 then []
    else CutAll(remaining[..|remaining| - 1], sub) + Cut(remaining[|remaining| - 1], sub)
  }

  /** The outer loop: the subtracted intervals taken out one after another. */
  function SubtractAll(remaining: seq<Interval>, subs: seq<Interval>): seq<Interval>
    decreases |subs|
  {
    if |subs| == 0 then remaining else SubtractAll(CutAll(remaining, subs[0]), subs[1..])
  }

  /** `subtractIntervals(base, toSubtract)`. */
  method SubtractIntervals(base: Interval, toSubtract: seq<Interval>) returns (remaining: seq<Interval>)
    ensures remaining == SubtractAll([base], toSubtract)
    ensures forall p :: Covered(remaining, p) <==> Covers(base, p) && forall s :: s in toSubtract ==> !Covers(s, p)
  {
    remaining := [base];
    var i := 0;
    while i < |toSubtract|
      invariant 0 <= i <= |toSubtract|
      invariant SubtractAll(remaining, toSubtract[i..]) == SubtractAll([base], toSubtract)
    {
      var sub := toSubtract[i];
      var newRemaining: seq<Interval> := [];
      var j := 0;
      while j < |remaining|
        invariant 0 <= j <= |remaining|
        invariant newRemaining == CutAll(remaining[..j], sub)
      {
        assert remaining[..j + 1][..j] == remaining[..j];
        var interval := remaining[j];
        if !Overlaps(interval, sub) {
          newRemaining := newRemaining + [interval];
        } else {
          if interval.start < sub.start {
            newRemaining := newRemaining + [Interval(interval.start, if sub.start < interval.end then sub.start else interval.end)];
          }
          if interval.end > sub.end {
            newRemaining := newRemaining + [Interval(if sub.end > interval.start then sub.end else interval.start, interval.end)];
          }
        }
        j := j + 1;
      }
      assert remaining[..j] == remaining;
      assert toSubtract[i..][1..] == toSubtract[i + 1..];
      remaining := newRemaining;
      i := i + 1;
    }
    forall p ensures Covered(remaining, p) <==> Covers(base, p) && forall s :: s in toSubtract ==> !Covers(s, p) {
      SubtractAllCoverage([base], toSubtract, p);
      CoveredAppend([], base, p);
      assert [] + [base] == [base];
    }
  }

  lemma CoveredConcat(a: seq<Interval>, b: seq<Interval>, p: int)
    ensures Covered(a + b, p) <==> Covered(a, p) || Covered(b, p)
  {
    if Covered(a, p) {
      var iv :| iv in a && Covers(iv, p);
      assert iv in a + b;
    }
    if Covered(b, p) {
      var iv :| iv in b && Covers(iv, p);
      assert iv in a + b;
    }
  }

  /** Cutting removes exactly the instants of `sub`. */
  lemma CutCoverage(iv: Interval, sub: Interval, p: int)
    ensures Covered(Cut(iv, sub), p) <==> Covers(iv, p) && !Covers(sub, p)
  {
    var c := Cut(iv, sub);
    if !Overlaps(iv, sub) {
      CoveredAppend([], iv, p);
      assert [] + [iv] == [iv];
    } else {
      var before := if iv.start < sub.start then [Interval(iv.start, if sub.start < iv.end then sub.start else iv.end)] else [];
      var after := if iv.end > sub.end then [Interval(if sub.end > iv.start then sub.end else iv.start, iv.end)] else [];
      assert c == before + after;
      CoveredConcat(before, after, p);
      if |before| > 0 { CoveredAppend([], before[0], p); assert before == [] + [before[0]]; }
      if |after| > 0 { CoveredAppend([], after[0], p); assert after == [] + [after[0]]; }
    }
  }

  lemma {:induction false} CutAllCoverage(remaining: seq<Interval>, sub: Interval, p: int)
    ensures Covered(CutAll(remaining, sub), p) <==> Covered(remaining, p) && !Covers(sub, p)
  {
    if |remaining| > 0 {
      var prefix, last := remaining[..|remaining| - 1], remaining[|remaining| - 1];
      assert remaining == prefix + [last];
      CutAllCoverage(prefix, sub, p);
      CoveredConcat(CutAll(prefix, sub), Cut(last, sub), p);
      CutCoverage(last, sub, p);
      CoveredAppend(prefix, last, p);
    }
  }

  /** The subtraction is exactly the set difference on instants. */
  lemma {:induction false} SubtractAllCoverage(remaining: seq<Interval>, subs: seq<Interval>, p: int)
    ensures Covered(SubtractAll(remaining, subs), p)
        <==> Covered(remaining, p) && forall s :: s in subs ==> !Covers(s, p)
    decreases |subs|
  {
    if |subs| > 0 {
      CutAllCoverage(remaining, subs[0], p);
      SubtractAllCoverage(CutAll(remaining, subs[0]), subs[1..], p);
      assert subs == [subs[0]] + subs[1..];
    }
  }

  /** When nothing subtracted overlaps base, the result is [base]. */
  lemma {:induction false} SubtractNothingOverlapping(remaining: seq<Interval>, subs: seq<Interval>)
    requires forall iv, s :: iv in remaining && s in subs ==> !Overlaps(iv, s)
    ensures SubtractAll(remaining, subs) == remaining
    decreases |subs|
  {
    if |subs| > 0 {
      CutAllUnchanged(remaining, subs[0]);
      SubtractNothingOverlapping(remaining, subs[1..]);
    }
  }

  lemma {:induction false} CutAllUnchanged(remaining: seq<Interval>, sub: Interval)
    requires forall iv :: iv in remaining ==> !Overlaps(iv, sub)
    ensures CutAll(remaining, sub) == remaining
  {
    if |remaining| > 0 {
      var prefix := remaining[..|remaining| - 1];
      assert remaining == prefix + [remaining[|remaining| - 1]];
      CutAllUnchanged(prefix, sub);
    }
  }

  /** Every interval starts at or after `lo` and ends at or before `hi`. */
  predicate Bounded(s: seq<Interval>, lo: int, hi: int) {
    forall iv :: iv in s ==> lo <= iv.start && iv.end <= hi
  }

  /** Merging never reaches outside the bounds of its input. */
  lemma {:induction false} MergeSortedBounded(sorted: seq<Interval>, lo: int, hi: int)
    requires Bounded(sorted, lo, hi)
    ensures Bounded(MergeSorted(sorted), lo, hi)
  {
    if |sorted| > 0 {
      var prefix, cur := sorted[..|sorted| - 1], sorted[|sorted| - 1];
      assert forall iv :: iv in prefix ==> iv in sorted;
      MergeSortedBounded(prefix, lo, hi);
      var m := MergeSorted(prefix);
      if |m| > 0 {
        assert m[|m| - 1] in m;
        assert forall iv :: iv in m[..|m| - 1] ==> iv in m;
      }
    }
  }

  /** Sorting and merging, as `mergeIntervals` does, keeps the bounds. */
  lemma MergeIntervalsBounded(intervals: seq<Interval>, lo: int, hi: int)
    requires Bounded(intervals, lo, hi)
    ensures Bounded(MergeSorted(SortByStart(intervals)), lo, hi)
  {
    var sorted := SortByStart(intervals);
    assert forall iv :: iv in sorted ==> iv in multiset(sorted);
    MergeSortedBounded(sorted, lo, hi);
  }

  /** `a` lies inside `b`. */
  predicate Within(a: Interval, b: Interval) {
    b.start <= a.start && a.end <= b.end
  }

  lemma {:induction false} CutAllWithin(remaining: seq<Interval>, sub: Interval)
    ensures forall r :: r in CutAll(remaining, sub) ==>
      !Overlaps(r, sub) && exists iv :: iv in remaining && Within(r, iv)
  {
    if |remaining| > 0 {
      var prefix, last := remaining[..|remaining| - 1], remaining[|remaining| - 1];
      CutAllWithin(prefix, sub);
      forall r | r in CutAll(remaining, sub)
        ensures !Overlaps(r, sub) && exists iv :: iv in remaining && Within(r, iv)
      {
        if r in CutAll(prefix, sub) {
          var iv :| iv in prefix && Within(r, iv);
          assert iv in remaining;
        } else {
          assert r in Cut(last, sub);
          assert Within(r, last);
        }
      }
    }
  }

  /** Every interval left by the subtraction lies inside an interval it started from and
      overlaps none of the subtracted intervals. */
  lemma {:induction false} SubtractAllWithin(remaining: seq<Interval>, subs: seq<Interval>, avoided: seq<Interval>)
    requires forall iv, s :: iv in remaining && s in avoided ==> !Overlaps(iv, s)
    ensures forall r :: r in SubtractAll(remaining, subs) ==>
      (exists iv :: iv in remaining && Within(r, iv))
      && forall s :: s in avoided + subs ==> !Overlaps(r, s)
    decreases |subs|
  {
    if |subs| == 0 {
      assert avoided + subs == avoided;
      forall r | r in remaining ensures Within(r, r) { }
    } else {
      var cut := CutAll(remaining, subs[0]);
      CutAllWithin(remaining, subs[0]);
      forall iv, s | iv in cut && s in avoided + [subs[0]] ensures !Overlaps(iv, s) {
        var parent :| parent in remaining && Within(iv, parent);
      }
      SubtractAllWithin(cut, subs[1..], avoided + [subs[0]]);
      assert avoided + [subs[0]] + subs[1..] == avoided + subs;
      forall r | r in SubtractAll(remaining, subs) ensures exists iv :: iv in remaining && Within(r, iv) {
        assert r in SubtractAll(cut, subs[1..]);
        var c :| c in cut && Within(r, c);
        var parent :| parent in remaining && Within(c, parent);
        assert Within(r, parent);
      }
    }
  }

  /** Every interval `subtractIntervals(base, subs)` returns lies inside base and overlaps
      none of subs; with nothing overlapping base, the result is [base]. */
  lemma SubtractIntervalsProperties(base: Interval, subs: seq<Interval>)
    ensures forall r :: r in SubtractAll([base], subs) ==>
      Within(r, base) && forall s :: s in subs ==> !Overlaps(r, s)
    ensures (forall s :: s in subs ==> !Overlaps(base, s)) ==> SubtractAll([base], subs) == [base]
  {
    SubtractAllWithin([base], subs, []);
    assert [] + subs == subs;
    if forall s :: s in subs ==> !Overlaps(base, s) {
      SubtractNothingOverlapping([base], subs);
    }
  }
}
