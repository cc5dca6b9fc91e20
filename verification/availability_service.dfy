/** A professional's free slots on a day: the day's opening intervals are chosen by
    priority (a block exception, then an override exception, then rules for that date,
    then weekly rules), merged, stripped of the time taken by confirmed bookings and cut
    into slots of fixed length. Dates are day numbers, instants milliseconds (UTC). */
module AvailabilityService {
  import opened Wrappers
  import opened DateUtils
  import Booking
  import BookingRepository
  import Seqs
  import Numbers

  const DefaultSlotMinutes: int := 60

  datatype ExceptionKind = Block | Override

  /** A booking exception as its lookup returns it; an absent or empty field is None. */
  datatype BookingException = BookingException(
    kind: ExceptionKind,
    startTime: Option<int>,
    endTime: Option<int>,
    slotDurationMinutes: Option<int>)

  /** A booking rule's opening: instants whose UTC clock time is what counts. */
  datatype BookingRule = BookingRule(startTime: int, endTime: int, slotDurationMinutes: int)

  /** A free slot, as zero-padded UTC "HH:MM" bounds. */
  datatype Slot = Slot(start: string, end: string)

  /** 00:00 of the day. */
  function DayLo(date: int): int { date * MsPerDay }

  /** 23:59 of the day, the latest instant a clock time can name. */
  function DayHi(date: int): int { date * MsPerDay + 23 * MsPerHour + 59 * MsPerMinute }

  /** The weekday of a day number, 0 for Sunday (day 0 was a Thursday). */
  function Weekday(date: int): (w: int)
    ensures 0 <= w < 7
  {
    (date + 4) % 7
  }

  lemma WeekdayPeriodic(date: int)
    ensures Weekday(date + 7) == Weekday(date)
    ensures Weekday(date + 1) == (Weekday(date) + 1) % 7
  {
  }

  /** The instant on `date` with t's UTC clock time, which is what
      `parseDateTime(date, extractTime(t))` computes (`TimeOnDateIsParse`). */
  function TimeOnDate(date: int, t: int): (r: int)
    ensures DayLo(date) <= r <= DayHi(date)
    ensures ExtractTime(r) == ExtractTime(t)
  {
    ClockTimeFieldsInRange(date, HourOf(t), MinuteOf(t));
    date * MsPerDay + HourOf(t) * MsPerHour + MinuteOf(t) * MsPerMinute
  }

  lemma TimeOnDateIsParse(date: int, t: int)
    ensures ParseDateTime(date, ExtractTime(t)) == Some(TimeOnDate(date, t))
  {
    ParseExtracted(date, t);
  }

  // ---------------------------------------------------------------------------
  // Slot generation

  /** The spans the inner loop of `generate_slots_from_intervals` cuts from
      [current, end): back-to-back spans of `d` ms, while one still fits. */
  function CutSlots(current: int, end: int, d: int): (r: seq<Interval>)
    requires d > 0
    ensures forall k :: 0 <= k < |r| ==> r[k].end - r[k].start == d
    ensures forall k :: 0 <= k < |r| ==> Within(r[k], Interval(current, end))
    ensures |r| > 0 ==> r[0].start == current
    ensures forall k :: 0 <= k < |r| - 1 ==> r[k].end == r[k + 1].start
    ensures end - current < d ==> r == []
    decreases end - current
  {
    if current + d <= end then
      var rest := CutSlots(current + d, end, d);
      var r := [Interval(current, current + d)] + rest;
      assert forall k :: 1 <= k < |r| ==> r[k] == rest[k - 1];
      r
    else []
  }

  /** As many slots as fit: `Fits(end - current, d)`, that is floor((end - current) / d). */
  lemma {:induction false} CutSlotsCount(current: int, end: int, d: int)
    requires d > 0
    ensures |CutSlots(current, end, d)| == Numbers.Fits(end - current, d)
    decreases end - current
  {
    if current + d <= end {
      CutSlotsCount(current + d, end, d);
      assert end - (current + d) == (end - current) - d;
    }
  }

  /** Each span ends before any later one starts. */
  predicate Sequential(r: seq<Interval>) {
    forall j, k :: 0 <= j < k < |r| ==> r[j].end <= r[k].start
  }

  lemma {:induction false} CutSlotsSequential(current: int, end: int, d: int)
    requires d > 0
    ensures Sequential(CutSlots(current, end, d))
    decreases end - current
  {
    if current + d <= end {
      var rest := CutSlots(current + d, end, d);
      CutSlotsSequential(current + d, end, d);
      var r := [Interval(current, current + d)] + rest;
      assert CutSlots(current, end, d) == r;
      forall j, k | 0 <= j < k < |r| ensures r[j].end <= r[k].start {
        assert r[k] == rest[k - 1];
        if j > 0 {
          assert r[j] == rest[j - 1];
        }
      }
    }
  }

  /** The spans of every interval, in order. */
  function SlotSpans(intervals: seq<Interval>, d: int): seq<Interval>
    requires d > 0
  {
    if |intervals| == 0 then []
    else
      var last := intervals[|intervals| - 1];
      SlotSpans(intervals[..|intervals| - 1], d) + CutSlots(last.start, last.end, d)
  }

  /** Every span lasts `d` and lies inside one of the intervals. */
  lemma {:induction false} SlotSpansWithin(intervals: seq<Interval>, d: int)
    requires d > 0
    ensures forall sp :: sp in SlotSpans(intervals, d) ==>
              sp.end - sp.start == d && exists iv :: iv in intervals && Within(sp, iv)
  {
    if |intervals| > 0 {
      var prefix, last := intervals[..|intervals| - 1], intervals[|intervals| - 1];
      SlotSpansWithin(prefix, d);
      forall sp | sp in SlotSpans(intervals, d)
        ensures sp.end - sp.start == d && exists iv :: iv in intervals && Within(sp, iv)
      {
        if sp in SlotSpans(prefix, d) {
          var iv :| iv in prefix && Within(sp, iv);
          assert iv in intervals;
        } else {
          var c := CutSlots(last.start, last.end, d);
          assert sp in c;
          var k :| 0 <= k < |c| && c[k] == sp;
          assert Within(sp, Interval(last.start, last.end));
          assert Within(sp, last);
        }
      }
    }
  }

  function ToSlot(sp: Interval): Slot {
    Slot(ExtractTime(sp.start), ExtractTime(sp.end))
  }

  function ToSlots(spans: seq<Interval>): (r: seq<Slot>)
    ensures |r| == |spans|
  {
    if |spans| == 0 then [] else [ToSlot(spans[0])] + ToSlots(spans[1..])
  }

  lemma ToSlotsAppend(a: seq<Interval>, b: seq<Interval>)
    ensures ToSlots(a + b) == ToSlots(a) + ToSlots(b)
  {
    if |a| == 0 {
      assert a + b == b;
    } else {
      assert (a + b)[1..] == a[1..] + b;
      ToSlotsAppend(a[1..], b);
    }
  }

  /** `generate_slots_from_intervals(intervals, slotMinutes)` as a value. */
  function SlotsOf(intervals: seq<Interval>, slotMinutes: int): seq<Slot>
    requires slotMinutes > 0
  {
    ToSlots(SlotSpans(intervals, slotMinutes * MsPerMinute))
  }

  /** One turn of the inner loop: a slot fits, so the span up to `next` is emitted. */
  lemma CutSlotsStep(current: int, next: int, end: int, d: int)
    requires d > 0 && next == current + d && next <= end
    ensures ToSlots(CutSlots(current, end, d)) == [ToSlot(Interval(current, next))] + ToSlots(CutSlots(next, end, d))
  {
    var rest := CutSlots(next, end, d);
    var r := [Interval(current, next)] + rest;
    assert CutSlots(current, end, d) == r;
    assert r[1..] == rest;
  }

  /** The inner loop's invariant survives emitting the slot that starts at `current`. */
  lemma EmitSlot(slots: seq<Slot>, before: seq<Slot>, start: int, current: int, next: int, end: int, d: int)
    requires d > 0 && next == current + d && next <= end
    requires slots + ToSlots(CutSlots(current, end, d)) == before + ToSlots(CutSlots(start, end, d))
    ensures (slots + [ToSlot(Interval(current, next))]) + ToSlots(CutSlots(next, end, d))
         == before + ToSlots(CutSlots(start, end, d))
  {
    var x, tail := ToSlot(Interval(current, next)), ToSlots(CutSlots(next, end, d));
    CutSlotsStep(current, next, end, d);
    Seqs.PushHead(slots, x, tail);
  }

  lemma SlotSpansSnoc(intervals: seq<Interval>, i: int, d: int)
    requires d > 0 && 0 <= i < |intervals|
    ensures SlotSpans(intervals[..i + 1], d)
         == SlotSpans(intervals[..i], d) + CutSlots(intervals[i].start, intervals[i].end, d)
  {
    assert intervals[..i + 1][..i] == intervals[..i];
  }

  /** `generate_slots_from_intervals`: for each interval, slots from its start while a
      whole slot still fits before its end. `generate_slots_from_intervals` never ends on a slot length
      that is not positive. */
  method GenerateSlots(intervals: seq<Interval>, slotMinutes: int) returns (slots: seq<Slot>)
    requires slotMinutes > 0
    ensures slots == SlotsOf(intervals, slotMinutes)
  {
    slots := [];
    var durationMs := slotMinutes * 60 * 1000;
    assert durationMs == slotMinutes * MsPerMinute;
    for i := 0 to |intervals|
      invariant slots == ToSlots(SlotSpans(intervals[..i], durationMs))
    {
      var start := intervals[i].start;
      var end := intervals[i].end;
      var current := start;
      ghost var before := slots;
      while current + durationMs <= end
        invariant slots + ToSlots(CutSlots(current, end, durationMs))
               == before + ToSlots(CutSlots(start, end, durationMs))
        decreases end - current
      {
        var slotStart := ExtractTime(current);
        var slotEndDate := current + durationMs;
        var slotEnd := ExtractTime(slotEndDate);
        assert Slot(slotStart, slotEnd) == ToSlot(Interval(current, slotEndDate));
        EmitSlot(slots, before, start, current, slotEndDate, end, durationMs);
        slots := slots + [Slot(slotStart, slotEnd)];
        current := slotEndDate;
      }
      assert ToSlots(CutSlots(current, end, durationMs)) == [];
      SlotSpansSnoc(intervals, i, durationMs);
      ToSlotsAppend(SlotSpans(intervals[..i], durationMs), CutSlots(start, end, durationMs));
    }
    assert intervals[..|intervals|] == intervals;
  }

  lemma SingleIntervalSpans(iv: Interval, d: int)
    requires d > 0
    ensures SlotSpans([iv], d) == CutSlots(iv.start, iv.end, d)
  {
    assert [iv][..0] == [];
    assert SlotSpans([iv], d) == [] + CutSlots(iv.start, iv.end, d);
  }

  /** One opening interval yields back-to-back slots of length d from its start on. */
  lemma IntervalSlots(iv: Interval, d: int)
    requires d > 0
    ensures SlotSpans([iv], d) == CutSlots(iv.start, iv.end, d)
    ensures Sequential(SlotSpans([iv], d))
  {
    SingleIntervalSpans(iv, d);
    CutSlotsSequential(iv.start, iv.end, d);
  }

  /** One opening interval of length L yields floor(L / d) slots: `Fits(L, d)`. */
  lemma IntervalSlotCount(iv: Interval, d: int)
    requires d > 0
    ensures |SlotSpans([iv], d)| == Numbers.Fits(iv.end - iv.start, d)
  {
    SingleIntervalSpans(iv, d);
    CutSlotsCount(iv.start, iv.end, d);
  }

  /** The number of slots the intervals yield, one interval at a time. */
  function SlotCount(intervals: seq<Interval>, d: int): (n: int)
    requires d > 0
  {
    if |intervals| == 0 then 0
    else
      var last := intervals[|intervals| - 1];
      SlotCount(intervals[..|intervals| - 1], d) + Numbers.Fits(last.end - last.start, d)
  }

  /** Each interval contributes floor(length / d) slots. */
  lemma {:induction false} SlotSpansCount(intervals: seq<Interval>, d: int)
    requires d > 0
    ensures |SlotSpans(intervals, d)| == SlotCount(intervals, d)
  {
    if |intervals| > 0 {
      var last := intervals[|intervals| - 1];
      SlotSpansCount(intervals[..|intervals| - 1], d);
      CutSlotsCount(last.start, last.end, d);
    }
  }

  /** Two runs of spans, the first ending by `bound` and the second starting from it. */
  lemma SequentialConcat(head: seq<Interval>, tail: seq<Interval>, bound: int)
    requires Sequential(head) && Sequential(tail)
    requires forall x :: x in head ==> x.end <= bound
    requires forall y :: y in tail ==> bound <= y.start
    ensures Sequential(head + tail)
  {
    var r := head + tail;
    forall j, k | 0 <= j < k < |r| ensures r[j].end <= r[k].start {
      if k < |head| {
        assert r[j] == head[j] && r[k] == head[k];
      } else if j >= |head| {
        assert r[j] == tail[j - |head|] && r[k] == tail[k - |head|];
      } else {
        assert r[j] == head[j] && head[j] in head;
        assert r[k] == tail[k - |head|] && tail[k - |head|] in tail;
      }
    }
  }

  /** Over intervals sorted by start, each ending before the next begins (as merged ones
      are), no two slots overlap. */
  lemma {:induction false} SlotSpansSequential(intervals: seq<Interval>, d: int)
    requires d > 0
    requires SortedByStart(intervals) && Separated(intervals)
    ensures Sequential(SlotSpans(intervals, d))
  {
    if |intervals| > 0 {
      var n := |intervals|;
      var prefix, last := intervals[..n - 1], intervals[n - 1];
      var head := SlotSpans(prefix, d);
      var tail := CutSlots(last.start, last.end, d);
      assert SortedByStart(prefix) && Separated(prefix);
      SlotSpansSequential(prefix, d);
      EarlierEndBefore(intervals);
      SpansEndBy(prefix, d, last.start);
      CutSlotsSequential(last.start, last.end, d);
      forall y | y in tail ensures last.start <= y.start {
        var k :| 0 <= k < |tail| && tail[k] == y;
      }
      SequentialConcat(head, tail, last.start);
    }
  }

  /** In sorted, separated intervals every earlier one ends by the time the last starts. */
  lemma EarlierEndBefore(intervals: seq<Interval>)
    requires |intervals| > 0 && SortedByStart(intervals) && Separated(intervals)
    ensures forall iv :: iv in intervals[..|intervals| - 1] ==> iv.end <= intervals[|intervals| - 1].start
  {
    var n := |intervals|;
    forall iv | iv in intervals[..n - 1] ensures iv.end <= intervals[n - 1].start {
      var k :| 0 <= k < n - 1 && intervals[k] == iv;
      assert intervals[k].end <= intervals[k + 1].start <= intervals[n - 1].start;
    }
  }

  /** Slots cut from intervals that all end by `bound` end by `bound` too. */
  lemma SpansEndBy(intervals: seq<Interval>, d: int, bound: int)
    requires d > 0
    requires forall iv :: iv in intervals ==> iv.end <= bound
    ensures forall x :: x in SlotSpans(intervals, d) ==> x.end <= bound
  {
    SlotSpansWithin(intervals, d);
  }


  /** Slot `k` shows the zero-padded UTC "HH:MM" of the span's bounds. */
  lemma {:induction false} ToSlotsAt(spans: seq<Interval>, k: int)
    requires 0 <= k < |spans|
    ensures ToSlots(spans)[k] == Slot(ExtractTime(spans[k].start), ExtractTime(spans[k].end))
    ensures IsClockTime(ToSlots(spans)[k].start) && IsClockTime(ToSlots(spans)[k].end)
    ensures HoursField(ToSlots(spans)[k].start) == HourOf(spans[k].start)
            && MinutesField(ToSlots(spans)[k].start) == MinuteOf(spans[k].start)
  {
    if k > 0 {
      ToSlotsAt(spans[1..], k - 1);
    }
  }

  // ---------------------------------------------------------------------------
  // Subtracting bookings

  function Spans(bookings: seq<Booking.BookingProps>): (r: seq<Interval>)
    ensures |r| == |bookings|
    ensures forall k :: 0 <= k < |r| ==> r[k] == Booking.Span(bookings[k])
  {
    seq(|bookings|, k requires 0 <= k < |bookings| => Booking.Span(bookings[k]))
  }

  /** `subtractIntervals(iv, [sub])` is one cut. */
  lemma SubtractOne(iv: Interval, sub: Interval)
    ensures SubtractAll([iv], [sub]) == Cut(iv, sub)
  {
    assert [sub][1..] == [];
    assert [iv][..0] == [];
    assert CutAll([iv], sub) == [] + Cut(iv, sub);
  }

  /** `subtract_bookings_from_intervals`: each booking's span is cut out of every
      remaining interval in turn, one `subtractIntervals` call per interval. */
  method SubtractBookingsFromIntervals(intervals: seq<Interval>, bookings: seq<Booking.BookingProps>)
    returns (remaining: seq<Interval>)
    ensures remaining == SubtractAll(intervals, Spans(bookings))
    ensures forall p :: Covered(remaining, p) <==>
              Covered(intervals, p) && forall b :: b in bookings ==> !Covers(Booking.Span(b), p)
  {
    remaining := intervals;
    ghost var spans := Spans(bookings);
    for i := 0 to |bookings|
      invariant SubtractAll(remaining, spans[i..]) == SubtractAll(intervals, spans)
    {
      var bookingInterval := Interval(bookings[i].startAt, bookings[i].endAt);
      var newRemaining: seq<Interval> := [];
      for j := 0 to |remaining|
        invariant newRemaining == CutAll(remaining[..j], bookingInterval)
      {
        var pieces := SubtractIntervals(remaining[j], [bookingInterval]);
        SubtractOne(remaining[j], bookingInterval);
        assert remaining[..j + 1][..j] == remaining[..j];
        newRemaining := newRemaining + pieces;
      }
      assert remaining[..|remaining|] == remaining;
      assert spans[i..][0] == bookingInterval;
      assert spans[i..][1..] == spans[i + 1..];
      remaining := newRemaining;
    }
    assert spans[|bookings|..] == [];
    forall p ensures Covered(remaining, p) <==>
                     Covered(intervals, p) && forall b :: b in bookings ==> !Covers(Booking.Span(b), p) {
      SubtractAllCoverage(intervals, spans, p);
      forall b | b in bookings ensures Booking.Span(b) in spans {
        var k :| 0 <= k < |bookings| && bookings[k] == b;
        assert spans[k] == Booking.Span(b);
      }
    }
  }

  // ---------------------------------------------------------------------------
  // Choosing the day's opening intervals

  /** The lookups of one professional's schedule: the exception for a date, the rules
      for a date, and the weekly rules for a weekday. */
  datatype Lookups = Lookups(
    exceptionOn: int -> Option<BookingException>,
    specificOn: int -> seq<BookingRule>,
    weeklyOn: int -> seq<BookingRule>)

  /** The day's opening intervals and slot length, before merging. */
  datatype Plan = Plan(intervals: seq<Interval>, slotMinutes: int)

  predicate IsBlock(exception: Option<BookingException>) {
    exception.Some? && exception.value.kind == Block
  }

  predicate IsOverride(exception: Option<BookingException>) {
    exception.Some? && exception.value.kind == Override
  }

  /** An override whose start, end and slot length are all present and truthy. */
  predicate UsableOverride(e: BookingException) {
    e.startTime.Some? && e.endTime.Some? && e.slotDurationMinutes.Some? && e.slotDurationMinutes.value != 0
  }

  /** Both ends lie between 00:00 and 23:59 of the day. */
  predicate OnDay(iv: Interval, date: int) {
    DayLo(date) <= iv.start <= DayHi(date) && DayLo(date) <= iv.end <= DayHi(date)
  }

  /** `rules_to_intervals`: each rule's clock times placed on `date`. */
  function RulesToIntervals(rules: seq<BookingRule>, date: int): (r: seq<Interval>)
    ensures |r| == |rules|
    ensures forall k :: 0 <= k < |r| ==>
              OnDay(r[k], date)
              && ExtractTime(r[k].start) == ExtractTime(rules[k].startTime)
              && ExtractTime(r[k].end) == ExtractTime(rules[k].endTime)
  {
    seq(|rules|, k requires 0 <= k < |rules| =>
      Interval(TimeOnDate(date, rules[k].startTime), TimeOnDate(date, rules[k].endTime)))
  }

  /** The priority rule: an override (used only when complete), else the rules for the
      date, else the weekly rules for its weekday, each with its first rule's slot length. */
  function SelectPlan(lk: Lookups, date: int): (p: Plan)
    ensures forall iv :: iv in p.intervals ==> OnDay(iv, date)
    ensures IsBlock(lk.exceptionOn(date)) ==> p.intervals == []
  {
    var exception := lk.exceptionOn(date);
    if IsBlock(exception) then Plan([], DefaultSlotMinutes)
    else if IsOverride(exception) then
      var e := exception.value;
      if UsableOverride(e) then
        Plan([Interval(TimeOnDate(date, e.startTime.value), TimeOnDate(date, e.endTime.value))],
             e.slotDurationMinutes.value)
      else Plan([], DefaultSlotMinutes)
    else
      var specific := lk.specificOn(date);
      if |specific| > 0 then Plan(RulesToIntervals(specific, date), specific[0].slotDurationMinutes)
      else
        var weekly := lk.weeklyOn(Weekday(date));
        if |weekly| > 0 then Plan(RulesToIntervals(weekly, date), weekly[0].slotDurationMinutes)
        else Plan([], DefaultSlotMinutes)
  }

  /** Slots can be generated: the plan the priority rule picks has no interval to cut, or
      its slot length is positive (`SlotLengthOkMeans`). */
  predicate SlotLengthOk(lk: Lookups, date: int) {
    var exception := lk.exceptionOn(date);
    if IsBlock(exception) then true
    else if IsOverride(exception) then !UsableOverride(exception.value) || exception.value.slotDurationMinutes.value > 0
    else
      var specific := lk.specificOn(date);
      if |specific| > 0 then specific[0].slotDurationMinutes > 0
      else
        var weekly := lk.weeklyOn(Weekday(date));
        |weekly| == 0 || weekly[0].slotDurationMinutes > 0
  }

  lemma SlotLengthOkMeans(lk: Lookups, date: int)
    ensures SlotLengthOk(lk, date) <==>
            |SelectPlan(lk, date).intervals| == 0 || SelectPlan(lk, date).slotMinutes > 0
  {
  }

  predicate IsConfirmed(b: Booking.BookingProps) { b.status == Booking.Confirmed }

  /** The confirmed bookings of `userId` that the day's range query returns. */
  function BookedOn(bookings: seq<Booking.BookingProps>, userId: string, date: int): seq<Booking.BookingProps> {
    Seqs.Filter(BookingRepository.InDateRange(bookings, userId, DayLo(date), DayHi(date)), IsConfirmed)
  }

  /** The spans of the free slots of `date`. */
  function AvailableSpans(lk: Lookups, bookings: seq<Booking.BookingProps>, userId: string, date: int): seq<Interval>
    requires SlotLengthOk(lk, date)
  {
    if IsBlock(lk.exceptionOn(date)) then []
    else
      var p := SelectPlan(lk, date);
      if |p.intervals| == 0 then []
      else
        var merged := MergeSorted(SortByStart(p.intervals));
        SlotSpans(SubtractAll(merged, Spans(BookedOn(bookings, userId, date))), p.slotMinutes * MsPerMinute)
  }

  /** `get_available_slots(user_id, date)` as a value. */
  function AvailableSlots(lk: Lookups, bookings: seq<Booking.BookingProps>, userId: string, date: int): seq<Slot>
    requires SlotLengthOk(lk, date)
  {
    ToSlots(AvailableSpans(lk, bookings, userId, date))
  }

  /** `get_available_slots`: a block exception ends the search; otherwise the locals
      `intervals` and `slot_duration_minutes` are set by priority, merged, stripped of
      the confirmed bookings and cut into slots. */
  method GetAvailableSlots(lk: Lookups, bookings: seq<Booking.BookingProps>, userId: string, date: int)
    returns (slots: seq<Slot>)
    requires SlotLengthOk(lk, date)
    ensures slots == AvailableSlots(lk, bookings, userId, date)
  {
    var exception := lk.exceptionOn(date);
    if exception.Some? && exception.value.kind == Block {
      return [];
    }
    var intervals: seq<Interval> := [];
    var slotDurationMinutes := DefaultSlotMinutes;
    if exception.Some? && exception.value.kind == Override {
      var e := exception.value;
      if e.startTime.Some? && e.endTime.Some? && e.slotDurationMinutes.Some? && e.slotDurationMinutes.value != 0 {
        intervals := [Interval(TimeOnDate(date, e.startTime.value), TimeOnDate(date, e.endTime.value))];
        slotDurationMinutes := e.slotDurationMinutes.value;
      }
    } else {
      var specificRules := lk.specificOn(date);
      if |specificRules| > 0 {
        intervals := RulesToIntervals(specificRules, date);
        slotDurationMinutes := specificRules[0].slotDurationMinutes;
      } else {
        var weekday := Weekday(date);
        var weeklyRules := lk.weeklyOn(weekday);
        if |weeklyRules| > 0 {
          intervals := RulesToIntervals(weeklyRules, date);
          slotDurationMinutes := weeklyRules[0].slotDurationMinutes;
        }
      }
    }
    assert Plan(intervals, slotDurationMinutes) == SelectPlan(lk, date);
    if |intervals| == 0 {
      return [];
    }
    intervals := MergeIntervals(intervals);
    var startOfDay := DayLo(date);
    var endOfDay := DayHi(date);
    var bookingsInRange := BookingRepository.InDateRange(bookings, userId, startOfDay, endOfDay);
    var confirmedBookings := Seqs.Filter(bookingsInRange, IsConfirmed);
    intervals := SubtractBookingsFromIntervals(intervals, confirmedBookings);
    slots := GenerateSlots(intervals, slotDurationMinutes);
  }

  // ---------------------------------------------------------------------------
  // Properties of the day's availability

  /** A block exception leaves the day without slots. */
  lemma BlockYieldsNothing(lk: Lookups, bookings: seq<Booking.BookingProps>, userId: string, date: int)
    requires SlotLengthOk(lk, date)
    requires IsBlock(lk.exceptionOn(date))
    ensures AvailableSlots(lk, bookings, userId, date) == []
  {
  }

  /** An exception decides the plan alone: the rules for the date and the weekly rules are
      never consulted; an override missing its start, end or slot length leaves nothing. */
  lemma ExceptionDecides(lk: Lookups, date: int, specific: int -> seq<BookingRule>, weekly: int -> seq<BookingRule>)
    requires lk.exceptionOn(date).Some?
    ensures SelectPlan(lk, date) == SelectPlan(lk.(specificOn := specific, weeklyOn := weekly), date)
    ensures IsOverride(lk.exceptionOn(date)) && !UsableOverride(lk.exceptionOn(date).value) ==>
              SelectPlan(lk, date).intervals == []
    ensures IsOverride(lk.exceptionOn(date)) && UsableOverride(lk.exceptionOn(date).value) ==>
              |SelectPlan(lk, date).intervals| == 1
              && SelectPlan(lk, date).slotMinutes == lk.exceptionOn(date).value.slotDurationMinutes.value
  {
  }

  /** The weekly rules count only when there is no exception and no rule for the date;
      the slot length is the first chosen rule's, or 60 when none was chosen. */
  lemma RulePriority(lk: Lookups, date: int, weekly: int -> seq<BookingRule>)
    requires lk.exceptionOn(date).None?
    ensures |lk.specificOn(date)| > 0 ==>
              SelectPlan(lk, date) == SelectPlan(lk.(weeklyOn := weekly), date)
              && SelectPlan(lk, date).slotMinutes == lk.specificOn(date)[0].slotDurationMinutes
              && |SelectPlan(lk, date).intervals| == |lk.specificOn(date)|
    ensures |lk.specificOn(date)| == 0 && |lk.weeklyOn(Weekday(date))| > 0 ==>
              SelectPlan(lk, date).slotMinutes == lk.weeklyOn(Weekday(date))[0].slotDurationMinutes
              && |SelectPlan(lk, date).intervals| == |lk.weeklyOn(Weekday(date))|
    ensures |lk.specificOn(date)| == 0 && |lk.weeklyOn(Weekday(date))| == 0 ==>
              SelectPlan(lk, date) == Plan([], DefaultSlotMinutes)
  {
  }

  /** Only confirmed bookings of the professional take time away: adding a booking that is
      not confirmed, or belongs to someone else, changes no slot. */
  lemma UnconfirmedIgnored(lk: Lookups, bookings: seq<Booking.BookingProps>, b: Booking.BookingProps,
                           userId: string, date: int)
    requires SlotLengthOk(lk, date)
    requires b.status != Booking.Confirmed || b.userId != userId
    ensures AvailableSlots(lk, bookings + [b], userId, date) == AvailableSlots(lk, bookings, userId, date)
  {
    var inRange := BookingRepository.InDateRange(bookings, userId, DayLo(date), DayHi(date));
    var extra := if b.userId == userId && b.startAt <= DayHi(date) && b.endAt >= DayLo(date) then [b] else [];
    BookingRepository.InDateRangeAppend(bookings, b, userId, DayLo(date), DayHi(date));
    Seqs.FilterAppend(inRange, extra, IsConfirmed);
    assert Seqs.Filter(extra, IsConfirmed) == [];
    assert BookedOn(bookings + [b], userId, date) == BookedOn(bookings, userId, date);
  }

  /** A confirmed booking of the professional that touches a span of the day is one of
      the bookings subtracted for that day. */
  lemma OverlapIsBooked(sp: Interval, bookings: seq<Booking.BookingProps>, b: Booking.BookingProps,
                        userId: string, date: int)
    requires DayLo(date) <= sp.start && sp.end <= DayHi(date)
    requires b in bookings && b.userId == userId && b.status == Booking.Confirmed
    ensures Overlaps(sp, Booking.Span(b)) ==> Booking.Span(b) in Spans(BookedOn(bookings, userId, date))
  {
    var booked := BookedOn(bookings, userId, date);
    if b.startAt <= DayHi(date) && b.endAt >= DayLo(date) {
      assert b in booked;
      var k :| 0 <= k < |booked| && booked[k] == b;
      assert Spans(booked)[k] == Booking.Span(b);
    }
  }

  /** A slot cut from what the booked spans leave of the merged opening intervals lasts `d`,
      stays inside the bounds, lies in the opening hours and meets no booked span. */
  lemma FreeSpanSound(intervals: seq<Interval>, booked: seq<Interval>, d: int, lo: int, hi: int, sp: Interval)
    requires d > 0 && Bounded(intervals, lo, hi)
    requires sp in SlotSpans(SubtractAll(MergeSorted(SortByStart(intervals)), booked), d)
    ensures sp.end - sp.start == d && lo <= sp.start && sp.end <= hi
    ensures forall p :: Covers(sp, p) ==> Covered(intervals, p)
    ensures forall x :: x in booked ==> !Overlaps(sp, x)
  {
    var merged := MergeSorted(SortByStart(intervals));
    var free := SubtractAll(merged, booked);
    MergeIntervalsBounded(intervals, lo, hi);
    SubtractAllWithin(merged, booked, []);
    assert [] + booked == booked;
    SlotSpansWithin(free, d);
    var f :| f in free && Within(sp, f);
    var m :| m in merged && Within(f, m);
    forall p | Covers(sp, p) ensures Covered(intervals, p) {
      assert Covers(m, p);
      MergeIntervalsCoverage(intervals, p);
    }
  }

  /** Every free slot lasts exactly the slot length, lies within the day's opening hours as
      chosen by the priority rule, and overlaps no confirmed booking of the professional. */
  lemma AvailableSpansSound(lk: Lookups, bookings: seq<Booking.BookingProps>, userId: string, date: int)
    requires SlotLengthOk(lk, date)
    ensures forall sp :: sp in AvailableSpans(lk, bookings, userId, date) ==>
              sp.end - sp.start == SelectPlan(lk, date).slotMinutes * MsPerMinute
              && DayLo(date) <= sp.start && sp.end <= DayHi(date)
              && (forall p :: Covers(sp, p) ==> Covered(SelectPlan(lk, date).intervals, p))
              && (forall b :: b in bookings && b.userId == userId && b.status == Booking.Confirmed ==>
                    !Overlaps(sp, Booking.Span(b)))
  {
    var plan := SelectPlan(lk, date);
    if !IsBlock(lk.exceptionOn(date)) && |plan.intervals| > 0 {
      var d := plan.slotMinutes * MsPerMinute;
      var booked := Spans(BookedOn(bookings, userId, date));
      forall sp | sp in AvailableSpans(lk, bookings, userId, date)
        ensures sp.end - sp.start == d
        ensures DayLo(date) <= sp.start && sp.end <= DayHi(date)
        ensures forall p :: Covers(sp, p) ==> Covered(plan.intervals, p)
        ensures forall b :: b in bookings && b.userId == userId && b.status == Booking.Confirmed ==>
                  !Overlaps(sp, Booking.Span(b))
      {
        FreeSpanSound(plan.intervals, booked, d, DayLo(date), DayHi(date), sp);
        forall b | b in bookings && b.userId == userId && b.status == Booking.Confirmed
          ensures !Overlaps(sp, Booking.Span(b))
        {
          OverlapIsBooked(sp, bookings, b, userId, date);
        }
      }
    }
  }

  // ---------------------------------------------------------------------------
  // Days with availability

  predicate StrictlyIncreasing(days: seq<int>) {
    forall j, k :: 0 <= j < k < |days| ==> days[j] < days[k]
  }

  /** Slots can be generated on each of the `n` days from `today` on. */
  predicate SlotLengthsOk(lk: Lookups, today: int, n: int) {
    forall date :: today <= date < today + n ==> SlotLengthOk(lk, date)
  }

  /** The days among the first `n` from `today` on that satisfy `open`, in order. */
  function DaysWhere(today: int, n: int, open: int -> bool): seq<int>
    decreases n
  {
    if n <= 0 then []
    else DaysWhere(today, n - 1, open) + (if open(today + n - 1) then [today + n - 1] else [])
  }

  /** `DaysWhere` keeps exactly the days of the window that satisfy `open`, in increasing order. */
  lemma {:induction false} DaysWhereSpec(today: int, n: int, open: int -> bool)
    ensures forall date :: date in DaysWhere(today, n, open) <==> today <= date < today + n && open(date)
    ensures StrictlyIncreasing(DaysWhere(today, n, open))
    decreases n
  {
    if n > 0 {
      var prev := DaysWhere(today, n - 1, open);
      DaysWhereSpec(today, n - 1, open);
      assert forall k :: 0 <= k < |prev| ==> prev[k] in prev;
    }
  }

  lemma DaysWhereStep(today: int, i: int, date: int, open: int -> bool)
    requires i >= 0 && date == today + i
    ensures DaysWhere(today, i + 1, open) == DaysWhere(today, i, open) + (if open(date) then [date] else [])
  {
  }

  /** Whether `date` has a free slot. */
  function HasSlots(lk: Lookups, bookings: seq<Booking.BookingProps>, userId: string): int -> bool {
    date => SlotLengthOk(lk, date) && |AvailableSlots(lk, bookings, userId, date)| > 0
  }

  /** One more day of the window: it joins the open days exactly when its slot list is
      non-empty. */
  lemma OpenDayStep(lk: Lookups, bookings: seq<Booking.BookingProps>, userId: string, today: int, i: int,
                    date: int, slots: seq<Slot>)
    requires i >= 0 && date == today + i && SlotLengthOk(lk, date)
    requires slots == AvailableSlots(lk, bookings, userId, date)
    ensures DaysWhere(today, i + 1, HasSlots(lk, bookings, userId))
         == DaysWhere(today, i, HasSlots(lk, bookings, userId)) + (if |slots| > 0 then [date] else [])
  {
    DaysWhereStep(today, i, date, HasSlots(lk, bookings, userId));
  }

  /** The open days of the window are exactly its dates with a free slot, in increasing
      order. */
  lemma OpenDaysSpec(lk: Lookups, bookings: seq<Booking.BookingProps>, userId: string,
                     today: int, daysAhead: int)
    requires SlotLengthsOk(lk, today, daysAhead)
    ensures forall date :: date in DaysWhere(today, daysAhead, HasSlots(lk, bookings, userId)) <==>
              today <= date < today + daysAhead && |AvailableSlots(lk, bookings, userId, date)| > 0
    ensures StrictlyIncreasing(DaysWhere(today, daysAhead, HasSlots(lk, bookings, userId)))
  {
    var open := HasSlots(lk, bookings, userId);
    DaysWhereSpec(today, daysAhead, open);
    forall date ensures date in DaysWhere(today, daysAhead, open) <==>
                        today <= date < today + daysAhead && |AvailableSlots(lk, bookings, userId, date)| > 0
    {
      if today <= date < today + daysAhead {
        assert SlotLengthOk(lk, date);
      }
    }
  }

  /** `get_available_days`: the dates among `today` and the following days, `daysAhead` in
      all, that have at least one free slot. */
  method GetAvailableDays(lk: Lookups, bookings: seq<Booking.BookingProps>, userId: string,
                          today: int, daysAhead: int)
    returns (days: seq<int>)
    requires SlotLengthsOk(lk, today, daysAhead)
    ensures days == DaysWhere(today, daysAhead, HasSlots(lk, bookings, userId))
    ensures forall date :: date in days <==>
              today <= date < today + daysAhead && |AvailableSlots(lk, bookings, userId, date)| > 0
    ensures StrictlyIncreasing(days)
  {
    days := ScanDays(lk, bookings, userId, today, daysAhead);
    OpenDaysSpec(lk, bookings, userId, today, daysAhead);
  }

  /** The day-by-day loop of `get_available_days`. */
  method ScanDays(lk: Lookups, bookings: seq<Booking.BookingProps>, userId: string,
                  today: int, daysAhead: int)
    returns (days: seq<int>)
    requires SlotLengthsOk(lk, today, daysAhead)
    ensures days == DaysWhere(today, daysAhead, HasSlots(lk, bookings, userId))
  {
    days := [];
    var n := if daysAhead > 0 then daysAhead else 0;
    for i := 0 to n
      invariant days == DaysWhere(today, i, HasSlots(lk, bookings, userId))
    {
      var date := today + i;
      days := ScanDay(lk, bookings, userId, today, i, date, days);
    }
  }

  /** One iteration of the loop: day `date`, the `i`-th of the window, is added when it has a free slot. */
  method ScanDay(lk: Lookups, bookings: seq<Booking.BookingProps>, userId: string,
                 today: int, i: int, date: int, days: seq<int>)
    returns (days': seq<int>)
    requires i >= 0 && date == today + i && SlotLengthOk(lk, date)
    requires days == DaysWhere(today, i, HasSlots(lk, bookings, userId))
    ensures days' == DaysWhere(today, i + 1, HasSlots(lk, bookings, userId))
  {
    var slots := GetAvailableSlots(lk, bookings, userId, date);
    OpenDayStep(lk, bookings, userId, today, i, date, slots);
    days' := if |slots| > 0 then days + [date] else days;
  }
}
