/** The agenda's day grid: half-hour labels from 06:00 to 22:00, "HH:MM" <-> minutes,
    the grouping of overlapping appointments into columns, blocked slots, the work shift,
    and where a dragged appointment lands. Times are "HH:MM" strings; the grid reads them
    as minutes since midnight. */
module TimeGrid {
  import opened Wrappers
  import Text
  import Numbers
  import Sorting
  import Seqs
  import opened DateUtils

  const SlotHeight: int := 48
  const StartHour: int := 6
  const EndHour: int := 22

  datatype Status = Confirmed | Pending | Cancelled

  datatype Appointment = Appointment(
    id: string,
    clientName: string,
    clientPhone: string,
    service: string,
    professional: string,
    startTime: string,
    endTime: string,
    status: Status,
    price: int)

  /** An appointment whose times have the "HH:MM" shape the grid reads. */
  type Timed = a: Appointment | IsDigitPair(a.startTime) && IsDigitPair(a.endTime)
    witness Appointment("", "", "", "", "", "00:00", "00:00", Confirmed, 0)

  datatype BlockedTime = BlockedTime(id: string, startTime: string, endTime: string, reason: string)

  type TimedBlock = b: BlockedTime | IsDigitPair(b.startTime) && IsDigitPair(b.endTime)
    witness BlockedTime("", "00:00", "00:00", "")

  datatype WorkShift = WorkShift(startHour: int, endHour: int)

  // ---------------------------------------------------------------------------
  // Minutes and labels

  /** `timeToMinutes`: hours times sixty plus minutes. */
  function TimeToMinutes(t: string): (m: nat)
    requires IsDigitPair(t)
    ensures m <= 99 * 60 + 99
  {
    HoursField(t) * 60 + MinutesField(t)
  }

  /** Two "HH:MM" strings with the same fields are the same string. */
  lemma {:induction false} SameFields(s: string, t: string)
    requires IsDigitPair(s) && IsDigitPair(t)
    requires HoursField(s) == HoursField(t) && MinutesField(s) == MinutesField(t)
    ensures s == t
  {
    assert s[0] == t[0] && s[1] == t[1] && s[3] == t[3] && s[4] == t[4];
  }

  /** `minutesToTime`: floored hours and the remainder, each padded to two digits. For
      0 <= m < 6000 the label is the two digits of each, so it reads back as `m`. */
  function MinutesToTime(m: int): (t: string)
    ensures 0 <= m < 100 * 60 ==> t == Text.Pad2(m / 60) + ":" + Text.Pad2(m % 60)
    ensures 0 <= m < 100 * 60 ==> IsDigitPair(t) && HoursField(t) == m / 60 && MinutesField(t) == m % 60
    ensures 0 <= m < 100 * 60 ==> TimeToMinutes(t) == m
  {
    var r := Text.PadStart2(Text.IntToString(Numbers.FloorDiv(m, 60))) + ":"
             + Text.PadStart2(Text.IntToString(Numbers.JsRem(m, 60)));
    if 0 <= m < 100 * 60 then
      Text.Pad2IsPadStart(m / 60);
      Text.Pad2IsPadStart(m % 60);
      PaddedFields(m / 60, m % 60, ":" + Text.Pad2(m % 60));
      r
    else r
  }

  /** A padded hour followed by ":" and a padded minute is "HH:MM" with those fields. */
  lemma PaddedFields(h: nat, m: nat, suffix: string)
    requires h < 100 && m < 100 && suffix == ":" + Text.Pad2(m)
    ensures IsDigitPair(Text.Pad2(h) + suffix)
    ensures HoursField(Text.Pad2(h) + suffix) == h && MinutesField(Text.Pad2(h) + suffix) == m
  {
  }

  /** Reading a label back gives the label again, whenever its minutes are below 60. */
  lemma TimeRoundTrip(t: string)
    requires IsDigitPair(t) && MinutesField(t) < 60
    ensures MinutesToTime(TimeToMinutes(t)) == t
  {
    var h, m := HoursField(t), MinutesField(t);
    var x := TimeToMinutes(t);
    assert x == h * 60 + m;
    Numbers.ModUnique(x, 60, h, m);
    SameFields(MinutesToTime(x), t);
  }

  /** A clock time is such a label. */
  lemma ClockTimeRoundTrip(t: string)
    requires IsClockTime(t)
    ensures MinutesToTime(TimeToMinutes(t)) == t && TimeToMinutes(t) < 24 * 60
  {
    TimeRoundTrip(t);
  }

  /** The k-th label `generateTimeSlots` pushes: the hour START_HOUR + k / 2, padded, with
      ":00" for even k and ":30" for odd k (for hours that have two digits). */
  function SlotLabel(k: nat): string {
    var hour := StartHour + k / 2;
    if hour < 100 then Text.Pad2(hour) + (if k % 2 == 0 then ":00" else ":30") else ""
  }

  /** A label of a two-digit hour is two digits reading the hour, a colon, and "00" or
      "30" as k is even or odd. */
  lemma SlotLabelShape(k: nat)
    requires StartHour + k / 2 < 100
    ensures var r := SlotLabel(k);
            |r| == 5 && r[2] == ':' && r[3..] == (if k % 2 == 0 then "00" else "30")
            && Text.AllDigits(r[..2]) && Text.DigitValue(r[0]) * 10 + Text.DigitValue(r[1]) == StartHour + k / 2
  {
  }

  /** The k-th label of the grid is the clock time 30 * k minutes after 06:00. */
  lemma SlotLabelIsMinutes(k: nat)
    requires k <= 2 * (EndHour - StartHour)
    ensures IsClockTime(SlotLabel(k)) && TimeToMinutes(SlotLabel(k)) == StartHour * 60 + 30 * k
  {
    var hour, m := StartHour + k / 2, if k % 2 == 0 then 0 else 30;
    var suffix := ":" + Text.Pad2(m);
    assert suffix == if k % 2 == 0 then ":00" else ":30";
    assert SlotLabel(k) == Text.Pad2(hour) + suffix;
    PaddedFields(hour, m, suffix);
  }

  lemma PushLabel(slots: seq<string>, next: string)
    requires slots == Seqs.Tabulate(|slots|, SlotLabel) && next == SlotLabel(|slots|)
    ensures slots + [next] == Seqs.Tabulate(|slots| + 1, SlotLabel)
  {
  }

  /** One hour of the loop below: its whole-hour label continues the grid, and so does its
      half-hour label after it. */
  lemma HourSlots(slots: seq<string>, hour: nat)
    requires StartHour <= hour <= EndHour && |slots| == 2 * (hour - StartHour)
    requires slots == Seqs.Tabulate(|slots|, SlotLabel)
    ensures slots + [Text.Pad2(hour) + ":00"] == Seqs.Tabulate(|slots| + 1, SlotLabel)
    ensures slots + [Text.Pad2(hour) + ":00"] + [Text.Pad2(hour) + ":30"] == Seqs.Tabulate(|slots| + 2, SlotLabel)
  {
    var n, whole, half := |slots|, Text.Pad2(hour) + ":00", Text.Pad2(hour) + ":30";
    assert SlotLabel(n) == whole by {
      assert n / 2 == hour - StartHour && n % 2 == 0;
    }
    assert SlotLabel(n + 1) == half by {
      assert (n + 1) / 2 == hour - StartHour && (n + 1) % 2 == 1;
    }
    PushLabel(slots, whole);
    PushLabel(slots + [whole], half);
  }

  /** The grid starts at 06:00, ends at 22:00 and has no 22:30. */
  lemma GridEnds(slots: seq<string>)
    requires |slots| == 2 * (EndHour - StartHour) + 1 && slots == Seqs.Tabulate(|slots|, SlotLabel)
    ensures slots[0] == "06:00" && slots[|slots| - 1] == "22:00" && "22:30" !in slots
  {
    Seqs.TabulateAt(|slots|, SlotLabel, 0);
    Seqs.TabulateAt(|slots|, SlotLabel, |slots| - 1);
    var late := "22:30";
    assert IsDigitPair(late) && TimeToMinutes(late) == 22 * 60 + 30;
    forall k | 0 <= k < |slots| ensures slots[k] != late {
      Seqs.TabulateAt(|slots|, SlotLabel, k);
      SlotLabelIsMinutes(k);
    }
  }

  /** `generateTimeSlots`: the whole and half hours from START_HOUR to END_HOUR, without a
      half hour after the last. */
  method GenerateTimeSlots() returns (slots: seq<string>)
    ensures |slots| == 2 * (EndHour - StartHour) + 1
    ensures slots == Seqs.Tabulate(|slots|, SlotLabel)
    ensures slots[0] == "06:00" && slots[|slots| - 1] == "22:00" && "22:30" !in slots
  {
    slots := [];
    var hour := StartHour;
    while hour <= EndHour
      invariant StartHour <= hour <= EndHour + 1
      invariant |slots| == if hour <= EndHour then 2 * (hour - StartHour) else 2 * (EndHour - StartHour) + 1
      invariant slots == Seqs.Tabulate(|slots|, SlotLabel)
    {
      // `hour.toString().padStart(2, '0')`, which is Pad2 for an hour below 100
      HourSlots(slots, hour);
      slots := slots + [Text.Pad2(hour) + ":00"];
      if hour < EndHour {
        slots := slots + [Text.Pad2(hour) + ":30"];
      }
      hour := hour + 1;
    }
    GridEnds(slots);
  }

  // ---------------------------------------------------------------------------
  // Grouping overlapping appointments

  function Start(a: Timed): nat { TimeToMinutes(a.startTime) }

  function End(a: Timed): nat { TimeToMinutes(a.endTime) }

  /** The comparator `timeToMinutes(a.startTime) - timeToMinutes(b.startTime)`, as a strict
      "comes before". */
  function EarlierStart(): (Timed, Timed) -> bool {
    (a: Timed, b: Timed) => Start(a) < Start(b)
  }

  function SortByStart(s: seq<Timed>): seq<Timed> {
    Sorting.Sort(s, EarlierStart())
  }

  /** The running maximum of the ends, starting from 0 as `currentGroupEnd` does. */
  function MaxEnd(g: seq<Timed>): nat {
    if |g| == 0 then 0
    else if MaxEnd(g[..|g| - 1]) < End(g[|g| - 1]) then End(g[|g| - 1]) else MaxEnd(g[..|g| - 1])
  }

  /** Each appointment after the first starts before the latest end of those before it
      (ChainedStartsBefore, StartsBeforeChained). */
  predicate Chained(g: seq<Timed>)
    decreases |g|
  {
    |g| <= 1 || (Chained(g[..|g| - 1]) && Start(g[|g| - 1]) < MaxEnd(g[..|g| - 1]))
  }

  /** A chained group: each appointment after the first starts before the latest end of
      those before it. */
  lemma {:induction false} ChainedStartsBefore(g: seq<Timed>, i: int)
    requires Chained(g) && 1 <= i < |g|
    ensures Start(g[i]) < MaxEnd(g[..i])
    decreases |g|
  {
    var p := g[..|g| - 1];
    if i < |g| - 1 {
      ChainedStartsBefore(p, i);
      assert p[i] == g[i] && p[..i] == g[..i];
    } else {
      assert g[..i] == p;
    }
  }

  /** And the converse: a group where each appointment starts before the latest end of
      those before it is chained. */
  lemma {:induction false} StartsBeforeChained(g: seq<Timed>)
    requires forall i :: 1 <= i < |g| ==> Start(g[i]) < MaxEnd(g[..i])
    ensures Chained(g)
    decreases |g|
  {
    if |g| > 1 {
      var p := g[..|g| - 1];
      forall i | 1 <= i < |p| ensures Start(p[i]) < MaxEnd(p[..i]) {
        assert p[i] == g[i] && p[..i] == g[..i];
      }
      StartsBeforeChained(p);
    }
  }

  /** Each group after the first is non-empty and starts no earlier than the latest end of
      the group before it (SeparatedStartsAfter). */
  predicate Separated(groups: seq<seq<Timed>>)
    decreases |groups|
  {
    |groups| <= 1
    || (Separated(groups[..|groups| - 1]) && |groups[|groups| - 1]| > 0
        && Start(groups[|groups| - 1][0]) >= MaxEnd(groups[|groups| - 2]))
  }

  /** Separated groups: each group after the first is non-empty and starts no earlier than
      the latest end of the group before it. */
  lemma {:induction false} SeparatedStartsAfter(groups: seq<seq<Timed>>, j: int)
    requires Separated(groups) && 1 <= j < |groups|
    ensures |groups[j]| > 0 && Start(groups[j][0]) >= MaxEnd(groups[j - 1])
    decreases |groups|
  {
    if j < |groups| - 1 {
      var p := groups[..|groups| - 1];
      SeparatedStartsAfter(p, j);
      assert p[j] == groups[j] && p[j - 1] == groups[j - 1];
    }
  }

  /** Every group is non-empty and chained (AllChainedMeans). */
  predicate AllChained(groups: seq<seq<Timed>>)
    decreases |groups|
  {
    |groups| == 0
    || (AllChained(groups[..|groups| - 1]) && |groups[|groups| - 1]| > 0 && Chained(groups[|groups| - 1]))
  }

  lemma {:induction false} AllChainedMeans(groups: seq<seq<Timed>>)
    ensures AllChained(groups) <==> forall j :: 0 <= j < |groups| ==> |groups[j]| > 0 && Chained(groups[j])
    decreases |groups|
  {
    if |groups| > 0 {
      var p := groups[..|groups| - 1];
      AllChainedMeans(p);
      assert forall j :: 0 <= j < |p| ==> p[j] == groups[j];
    }
  }

  function Flatten(groups: seq<seq<Timed>>): seq<Timed> {
    if |groups| == 0 then [] else Flatten(groups[..|groups| - 1]) + groups[|groups| - 1]
  }

  lemma ChainedAppend(g: seq<Timed>, a: Timed)
    requires Chained(g) && (|g| == 0 || Start(a) < MaxEnd(g))
    ensures Chained(g + [a])
  {
    assert (g + [a])[..|g|] == g;
  }

  lemma MaxEndAppend(g: seq<Timed>, a: Timed)
    ensures MaxEnd(g + [a]) == if MaxEnd(g) < End(a) then End(a) else MaxEnd(g)
  {
    assert (g + [a])[..|g|] == g;
  }

  /** Closing a group: it joins the list, which stays chained and separated. */
  lemma PushGroup(groups: seq<seq<Timed>>, g: seq<Timed>)
    requires AllChained(groups) && Separated(groups) && |g| > 0 && Chained(g)
    requires |groups| > 0 ==> Start(g[0]) >= MaxEnd(groups[|groups| - 1])
    ensures Flatten(groups + [g]) == Flatten(groups) + g
    ensures AllChained(groups + [g]) && Separated(groups + [g])
  {
    assert (groups + [g])[..|groups|] == groups;
  }

  /** One appointment of the loop below joins the open group. */
  lemma ExtendGroup(current: seq<Timed>, apt: Timed)
    requires Chained(current) && (|current| == 0 || Start(apt) < MaxEnd(current))
    ensures Chained(current + [apt])
    ensures MaxEnd(current + [apt]) == if MaxEnd(current) < End(apt) then End(apt) else MaxEnd(current)
  {
    ChainedAppend(current, apt);
    MaxEndAppend(current, apt);
  }

  /** One appointment of the loop below opens a group of its own. */
  lemma OpenGroup(apt: Timed)
    ensures Chained([apt]) && MaxEnd([apt]) == End(apt)
  {
    MaxEndAppend([], apt);
    assert [] + [apt] == [apt];
  }

  /** What the loop of `groupOverlappingAppointments` keeps after `i` appointments: the
      closed groups and the open one hold them in order, every closed group is chained and
      non-empty, the groups are separated, the open group is chained, `currentGroupEnd` is
      its latest end, and once a group is closed the open one starts after it. */
  predicate RunsSoFar(sorted: seq<Timed>, i: int, groups: seq<seq<Timed>>, current: seq<Timed>, currentEnd: int) {
    0 <= i <= |sorted| && Flatten(groups) + current == sorted[..i]
    && AllChained(groups) && Separated(groups)
    && Chained(current) && currentEnd == MaxEnd(current)
    && (|groups| > 0 ==> |current| > 0 && Start(current[0]) >= MaxEnd(groups[|groups| - 1]))
  }

  /** The next appointment starts before the open group's end: it joins the group. */
  lemma ExtendRun(sorted: seq<Timed>, i: int, groups: seq<seq<Timed>>, current: seq<Timed>, currentEnd: int)
    requires RunsSoFar(sorted, i, groups, current, currentEnd) && i < |sorted|
    requires |current| == 0 || Start(sorted[i]) < currentEnd
    ensures RunsSoFar(sorted, i + 1, groups, current + [sorted[i]],
                      if currentEnd < End(sorted[i]) then End(sorted[i]) else currentEnd)
  {
    var apt := sorted[i];
    Seqs.PrefixPush(sorted, i);
    ExtendGroup(current, apt);
    assert Flatten(groups) + (current + [apt]) == (Flatten(groups) + current) + [apt];
    if |groups| > 0 {
      assert (current + [apt])[0] == current[0];
    }
  }

  /** The next appointment starts at or after the open group's end: the group is closed and
      the appointment opens the next one. */
  lemma CloseRun(sorted: seq<Timed>, i: int, groups: seq<seq<Timed>>, current: seq<Timed>, currentEnd: int)
    requires RunsSoFar(sorted, i, groups, current, currentEnd) && i < |sorted|
    requires |current| > 0 && Start(sorted[i]) >= currentEnd
    ensures RunsSoFar(sorted, i + 1, groups + [current], [sorted[i]], End(sorted[i]))
  {
    Seqs.PrefixPush(sorted, i);
    PushGroup(groups, current);
    OpenGroup(sorted[i]);
  }

  /** After the loop, pushing the open group (when it is not empty) closes the grouping. */
  lemma FinishRuns(sorted: seq<Timed>, groups: seq<seq<Timed>>, current: seq<Timed>, currentEnd: int)
    requires RunsSoFar(sorted, |sorted|, groups, current, currentEnd)
    ensures var r := if |current| > 0 then groups + [current] else groups;
            Flatten(r) == sorted && AllChained(r) && Separated(r)
  {
    assert sorted[..|sorted|] == sorted;
    if |current| > 0 {
      PushGroup(groups, current);
    } else {
      assert Flatten(groups) + current == Flatten(groups);
    }
  }

  /** `groupOverlappingAppointments`: the appointments in start order, cut into runs where
      each appointment starts before the latest end seen in its run. */
  method GroupOverlapping(appointments: seq<Timed>) returns (groups: seq<seq<Timed>>)
    ensures Flatten(groups) == SortByStart(appointments)
    ensures AllChained(groups) && Separated(groups)
  {
    groups := GroupRuns(SortByStart(appointments));
  }

  /** The `forEach` of `groupOverlappingAppointments`, over the sorted appointments. */
  method GroupRuns(sorted: seq<Timed>) returns (groups: seq<seq<Timed>>)
    ensures Flatten(groups) == sorted
    ensures AllChained(groups) && Separated(groups)
  {
    groups := [];
    var current: seq<Timed> := [];
    var currentEnd: nat := 0;
    var i := 0;
    while i < |sorted|
      invariant RunsSoFar(sorted, i, groups, current, currentEnd)
    {
      if |current| == 0 || Start(sorted[i]) < currentEnd {
        ExtendRun(sorted, i, groups, current, currentEnd);
        current := current + [sorted[i]];
        currentEnd := if currentEnd < End(sorted[i]) then End(sorted[i]) else currentEnd;
      } else {
        CloseRun(sorted, i, groups, current, currentEnd);
        groups := groups + [current];
        current := [sorted[i]];
        currentEnd := End(sorted[i]);
      }
      i := i + 1;
    }
    FinishRuns(sorted, groups, current, currentEnd);
    if |current| > 0 {
      groups := groups + [current];
    }
  }

  /** The grouped appointments are all the input ones, in start order. */
  lemma GroupsAreSortedInput(appointments: seq<Timed>)
    ensures multiset(SortByStart(appointments)) == multiset(appointments)
    ensures Sorting.SortedBy(SortByStart(appointments), EarlierStart())
  {
    Sorting.SortSorted(appointments, EarlierStart());
  }

  // ---------------------------------------------------------------------------
  // Blocked slots, the work shift and dragging

  /** `isTimeInBlockedSlot`: the time falls in some block, each block half-open. */
  predicate InBlockedSlot(time: string, blocked: seq<TimedBlock>)
    requires IsDigitPair(time)
  {
    exists k :: 0 <= k < |blocked| && TimeToMinutes(blocked[k].startTime) <= TimeToMinutes(time)
                                   && TimeToMinutes(time) < TimeToMinutes(blocked[k].endTime)
  }

  /** A block covers its own start and not its end. */
  lemma BlocksAreHalfOpen(b: TimedBlock)
    requires TimeToMinutes(b.startTime) < TimeToMinutes(b.endTime)
    ensures InBlockedSlot(b.startTime, [b])
    ensures !InBlockedSlot(b.endTime, [b])
  {
    assert [b][0] == b;
  }

  /** `isTimeOutsideWorkShift`. */
  predicate OutsideWorkShift(time: string, shift: WorkShift)
    requires IsDigitPair(time)
  {
    TimeToMinutes(time) < shift.startHour * 60 || TimeToMinutes(time) >= shift.endHour * 60
  }

  /** `Math.round` for the drag offset: the nearest integer, halves rounded up. */
  function Round(x: real): int {
    (x + 0.5).Floor
  }

  /** `calculateTargetTime`: the start moved by whole slots, clamped to [06:00, 21:30]. */
  function CalculateTargetTime(yOffset: real, originalStartTime: string): (r: string)
    requires IsDigitPair(originalStartTime)
    ensures IsDigitPair(r)
    ensures StartHour * 60 <= TimeToMinutes(r) <= (EndHour - 1) * 60 + 30
    ensures var moved := TimeToMinutes(originalStartTime) + Round(yOffset / SlotHeight as real) * 30;
            StartHour * 60 <= moved <= (EndHour - 1) * 60 + 30 ==> TimeToMinutes(r) == moved
  {
    var moved := TimeToMinutes(originalStartTime) + Round(yOffset / SlotHeight as real) * 30;
    var upper := if (EndHour - 1) * 60 + 30 < moved then (EndHour - 1) * 60 + 30 else moved;
    MinutesToTime(if StartHour * 60 < upper then upper else StartHour * 60)
  }

  /** JavaScript truthiness of an optional string. */
  predicate Present(s: Option<string>) { s.Some? && s.value != "" }

  function FindById(appointments: seq<Timed>, id: string): (r: Option<Timed>)
    ensures r.Some? ==> r.value in appointments && r.value.id == id
    ensures r.None? <==> forall a :: a in appointments ==> a.id != id
    ensures r.Some? ==> exists k :: 0 <= k < |appointments| && appointments[k] == r.value
                                  && forall j :: 0 <= j < k ==> appointments[j].id != id
  {
    Seqs.Find(appointments, (a: Timed) => a.id == id)
  }

  /** The drop `handleDragEnd` reports: the dragged appointment and its target, when the
      target is free, inside the shift and not where the appointment already starts. */
  function DropFor(activeId: Option<string>, target: Option<string>, appointments: seq<Timed>,
                   blocked: seq<TimedBlock>, shift: WorkShift): (drop: Option<(string, string)>)
    requires target.Some? ==> IsDigitPair(target.value)
    ensures drop.Some? <==>
              Present(activeId) && Present(target)
              && !InBlockedSlot(target.value, blocked) && !OutsideWorkShift(target.value, shift)
              && (exists a :: a in appointments && a.id == activeId.value)
              && FindById(appointments, activeId.value).value.startTime != target.value
    ensures drop.Some? ==> drop.value == (activeId.value, target.value)
  {
    if !Present(activeId) || !Present(target) then None
    else if InBlockedSlot(target.value, blocked) || OutsideWorkShift(target.value, shift) then None
    else match FindById(appointments, activeId.value)
      case Some(apt) => if apt.startTime != target.value then Some((activeId.value, target.value)) else None
      case None => None
  }

  /** The drag in progress: which appointment, whether it hovers an invalid slot, and
      where it would land. */
  class DragState {
    var activeId: Option<string>
    var isOverInvalid: bool
    var dragTargetTime: Option<string>

    predicate Valid()
      reads this
    {
      dragTargetTime.Some? ==> IsDigitPair(dragTargetTime.value)
    }

    constructor ()
      ensures Valid() && activeId.None? && !isOverInvalid && dragTargetTime.None?
    {
      activeId, isOverInvalid, dragTargetTime := None, false, None;
    }

    /** `handleDragStart`: the dragged appointment's start becomes the target. */
    method DragStart(id: string, appointments: seq<Timed>)
      requires Valid()
      modifies this
      ensures Valid()
      ensures activeId == Some(id) && isOverInvalid == old(isOverInvalid)
      ensures dragTargetTime == match FindById(appointments, id)
                                case Some(a) => Some(a.startTime)
                                case None => old(dragTargetTime)
    {
      activeId := Some(id);
      var apt := FindById(appointments, id);
      if apt.Some? {
        dragTargetTime := Some(apt.value.startTime);
      }
    }

    /** `handleDragMove`: with an appointment and an offset, the target follows the pointer
      and the invalid flag says whether it is blocked or outside the shift. */
    method DragMove(deltaY: Option<real>, appointments: seq<Timed>, blocked: seq<TimedBlock>, shift: WorkShift)
      requires Valid()
      modifies this
      ensures Valid() && activeId == old(activeId)
      ensures var apt := if old(activeId).Some? then FindById(appointments, old(activeId).value) else None;
              if apt.None? || deltaY.None? then dragTargetTime == old(dragTargetTime) && isOverInvalid == old(isOverInvalid)
              else
                var t := CalculateTargetTime(deltaY.value, apt.value.startTime);
                dragTargetTime == Some(t)
                && (isOverInvalid <==> InBlockedSlot(t, blocked) || OutsideWorkShift(t, shift))
    {
      var apt := if activeId.Some? then FindById(appointments, activeId.value) else None;
      if apt.None? || deltaY.None? {
        return;
      }
      var t := CalculateTargetTime(deltaY.value, apt.value.startTime);
      dragTargetTime := Some(t);
      isOverInvalid := InBlockedSlot(t, blocked) || OutsideWorkShift(t, shift);
    }

    /** `handleDragEnd`: clears the drag and reports the drop, if it is one to make. */
    method DragEnd(appointments: seq<Timed>, blocked: seq<TimedBlock>, shift: WorkShift)
      returns (drop: Option<(string, string)>)
      requires Valid()
      modifies this
      ensures Valid() && activeId.None? && !isOverInvalid && dragTargetTime.None?
      ensures drop == DropFor(old(activeId), old(dragTargetTime), appointments, blocked, shift)
    {
      drop := DropFor(activeId, dragTargetTime, appointments, blocked, shift);
      activeId, isOverInvalid, dragTargetTime := None, false, None;
    }
  }

  /** A drop is only ever to a free time inside the shift, between 06:00 and 21:30 when it
      comes from a move. */
  lemma DropFromMoveIsInGrid(y: real, start: string, id: string, appointments: seq<Timed>,
                             blocked: seq<TimedBlock>, shift: WorkShift)
    requires IsDigitPair(start)
    ensures var t := CalculateTargetTime(y, start);
            var drop := DropFor(Some(id), Some(t), appointments, blocked, shift);
            drop.Some? ==> StartHour * 60 <= TimeToMinutes(drop.value.1) <= (EndHour - 1) * 60 + 30
                           && shift.startHour * 60 <= TimeToMinutes(drop.value.1) < shift.endHour * 60
  {
  }
}
