/** The working-hours step of the new-unit form: opening and closing times per day,
    edited field by field, copied from one day to a chosen set of days, and an optional
    lunch break. */
module NewUnitWorkingHours {
  import opened Wrappers
  import Seqs
  import Text
  import OnboardingWorkingHours

  datatype DayHours = DayHours(open: string, close: string, enabled: bool)

  datatype LunchBreak = LunchBreak(enabled: bool, start: string, end: string)

  const DayIds: seq<string> := ["monday", "tuesday", "wednesday", "thursday", "friday", "saturday", "sunday"]

  /** The two options of one hour: on the hour and at half past. */
  function HourPair(h: nat): seq<string> {
    var hour := Text.PadStart2(Text.IntToString(h));
    [hour + ":00", hour + ":30"]
  }

  /** The options of the first n hours, flattened. */
  function Flatten(pairs: nat -> seq<string>, n: nat): seq<string> {
    if n == 0 then [] else Flatten(pairs, n - 1) + pairs(n - 1)
  }

  /** `hours`: each of the 24 hours on the hour and at half past. */
  function Hours(): seq<string> {
    Flatten(HourPair, HoursPerDay)
  }

  const HoursPerDay: nat := 24

  /** Flattening the first n pairs gives the first 2n entries of any list whose entries
      2h and 2h + 1 are pair h. */
  lemma {:induction false} FlattenPrefix(pairs: nat -> seq<string>, n: nat, all: seq<string>)
    requires 2 * n <= |all|
    requires forall h: nat :: h < n ==> pairs(h) == [all[2 * h], all[2 * h + 1]]
    ensures Flatten(pairs, n) == all[..2 * n]
    ensures 2 * n == |all| ==> Flatten(pairs, n) == all
  {
    assert all[..|all|] == all;
    if n > 0 {
      var h := n - 1;
      FlattenPrefix(pairs, h, all);
      Seqs.PrefixPush(all, 2 * h);
      Seqs.PrefixPush(all, 2 * h + 1);
      assert pairs(h) == [all[2 * h], all[2 * h + 1]];
    }
  }

  /** Both steps offer the same 48 times, "00:00" to "23:30". */
  lemma HoursAreTimeOptions()
    ensures Hours() == OnboardingWorkingHours.TimeOptions()
  {
    var all := OnboardingWorkingHours.TimeOptions();
    forall h: nat | h < 24
      ensures HourPair(h) == [all[2 * h], all[2 * h + 1]]
    {
      HourPairIsTimeOptions(h);
    }
    FlattenPrefix(HourPair, HoursPerDay, all);
  }

  lemma HourPairIsTimeOptions(h: nat)
    requires h < 24
    ensures HourPair(h)[0] == OnboardingWorkingHours.TimeOption(2 * h)
    ensures HourPair(h)[1] == OnboardingWorkingHours.TimeOption(2 * h + 1)
  {
    assert (2 * h) / 2 == h && (2 * h + 1) / 2 == h && (2 * h) % 2 == 0 && (2 * h + 1) % 2 == 1;
  }

  datatype DayField = Open(open: string) | Close(close: string) | Enabled(enabled: bool)

  /** `updateDayHours`: the field changes on the given day, and nothing else changes. */
  function UpdateDayHours(hours: map<string, DayHours>, dayId: string, v: DayField): (r: map<string, DayHours>)
    requires dayId in hours
    ensures r.Keys == hours.Keys
    ensures forall d :: d in hours && d != dayId ==> r[d] == hours[d]
    ensures r[dayId].open == (if v.Open? then v.open else hours[dayId].open)
    ensures r[dayId].close == (if v.Close? then v.close else hours[dayId].close)
    ensures r[dayId].enabled == (if v.Enabled? then v.enabled else hours[dayId].enabled)
  {
    var d := hours[dayId];
    hours[dayId := match v
                   case Open(o) => d.(open := o)
                   case Close(c) => d.(close := c)
                   case Enabled(e) => d.(enabled := e)]
  }

  datatype LunchField = LunchStart(start: string) | LunchEnd(end: string)

  /** `toggleLunchBreak`: only the switch changes. */
  function ToggleLunchBreak(l: LunchBreak, enabled: bool): (r: LunchBreak)
    ensures r.enabled == enabled && r.start == l.start && r.end == l.end
  {
    l.(enabled := enabled)
  }

  /** `updateLunchBreak`: only the named time changes. */
  function UpdateLunchBreak(l: LunchBreak, v: LunchField): (r: LunchBreak)
    ensures r.enabled == l.enabled
    ensures r.start == (if v.LunchStart? then v.start else l.start)
    ensures r.end == (if v.LunchEnd? then v.end else l.end)
  {
    match v
    case LunchStart(s) => l.(start := s)
    case LunchEnd(e) => l.(end := e)
  }

  /** The hours after copying `source` onto each of `days` in turn. */
  function CopiedHours(hours: map<string, DayHours>, source: DayHours, days: seq<string>): map<string, DayHours> {
    if |days| == 0 then hours
    else CopiedHours(hours, source, days[..|days| - 1])[days[|days| - 1] := source]
  }

  /** Every chosen day gets the source's hours, every other day keeps its own, and no day
      is lost. */
  lemma {:induction false} CopiedHoursSpec(hours: map<string, DayHours>, source: DayHours, days: seq<string>, d: string)
    ensures d in CopiedHours(hours, source, days) <==> d in hours || d in days
    ensures d in days ==> CopiedHours(hours, source, days)[d] == source
    ensures d in hours && d !in days ==> CopiedHours(hours, source, days)[d] == hours[d]
  {
    if |days| > 0 {
      var init := days[..|days| - 1];
      CopiedHoursSpec(hours, source, init, d);
      assert days == init + [days[|days| - 1]];
    }
  }

  /** The step's own state beside the form data: the day to copy from and the days to
      copy to. */
  class WorkingHoursStep {
    var workingHours: map<string, DayHours>
    var lunchBreak: LunchBreak
    var copyFromDay: Option<string>
    var selectedDaysToCopy: seq<string>

    constructor(hours: map<string, DayHours>, lunch: LunchBreak)
      ensures workingHours == hours && lunchBreak == lunch
      ensures copyFromDay == None && selectedDaysToCopy == []
    {
      workingHours := hours;
      lunchBreak := lunch;
      copyFromDay := None;
      selectedDaysToCopy := [];
    }

    /** `copyHoursToSelectedDays`: without a source day (none, or the falsy empty id) or
        without a chosen day nothing happens; otherwise each chosen day gets the source's
        hours and the choice is cleared. */
    method CopyHoursToSelectedDays()
      requires copyFromDay.Some? && copyFromDay.value != "" ==> copyFromDay.value in workingHours
      modifies this
      ensures old(copyFromDay).None? || old(copyFromDay).value == "" || |old(selectedDaysToCopy)| == 0 ==>
                && workingHours == old(workingHours) && copyFromDay == old(copyFromDay)
                && selectedDaysToCopy == old(selectedDaysToCopy)
      ensures old(copyFromDay).Some? && old(copyFromDay).value != "" && |old(selectedDaysToCopy)| > 0 ==>
                && workingHours == CopiedHours(old(workingHours), old(workingHours)[old(copyFromDay).value],
                                               old(selectedDaysToCopy))
                && copyFromDay == None && selectedDaysToCopy == []
      ensures lunchBreak == old(lunchBreak)
    {
      if copyFromDay.None? || copyFromDay.value == "" || |selectedDaysToCopy| == 0 {
        return;
      }
      var source := workingHours[copyFromDay.value];
      var newHours := workingHours;
      var days := selectedDaysToCopy;
      for i := 0 to |days|
        invariant newHours == CopiedHours(workingHours, source, days[..i])
      {
        assert days[..i + 1][..i] == days[..i];
        newHours := newHours[days[i] := source];
      }
      assert days[..|days|] == days;
      workingHours := newHours;
      copyFromDay := None;
      selectedDaysToCopy := [];
    }
  }
}
