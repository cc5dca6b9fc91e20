/** The working-hours step of the onboarding wizard: one weekly availability rule per
    weekday, switched on and off, edited field by field, and copied from one day to all
    the others. Every handler builds a new rule list for the form. */
module OnboardingWorkingHours {
  import opened Wrappers
  import Seqs
  import Text
  import opened DateUtils
  import ClockTimes

  datatype RuleType = Weekly | SpecificDate

  /** An availability rule as the form holds it. */
  datatype RuleInput = RuleInput(
    ruleType: RuleType,
    weekday: Option<int>,
    date: Option<string>,
    startTime: string,
    endTime: string,
    slotDurationMinutes: int,
    isActive: Option<bool>)

  /** The weekdays in the order the step lists them, Monday first (0 is Sunday). */
  const Days: seq<int> := [1, 2, 3, 4, 5, 6, 0]

  const DayLabels: seq<string> := ["Segunda", "Terça", "Quarta", "Quinta", "Sexta", "Sábado", "Domingo"]

  /** The i-th entry of `timeOptions`: hour i / 2, on the hour or at half past. */
  function TimeOption(i: nat): string
    requires i < 48
  {
    Text.PadStart2(Text.IntToString(i / 2)) + ":" + (if i % 2 == 0 then "00" else "30")
  }

  /** `timeOptions`. */
  function TimeOptions(): (r: seq<string>)
    ensures |r| == 48 && forall i :: 0 <= i < 48 ==> r[i] == TimeOption(i)
  {
    seq(48, i requires 0 <= i < 48 => TimeOption(i))
  }

  /** The options are the clock times from 00:00 to 23:30, half an hour apart. */
  lemma TimeOptionIsHalfHour(i: nat)
    requires i < 48
    ensures IsClockTime(TimeOptions()[i]) && ClockTimes.ClockMinutes(TimeOptions()[i]) == 30 * i
  {
    Text.Pad2IsPadStart(i / 2);
    var t := TimeOption(i);
    assert t[..2] == Text.Pad2(i / 2);
    assert HoursField(t) == i / 2;
  }

  predicate IsWeeklyFor(rule: RuleInput, weekday: int) {
    rule.ruleType == Weekly && rule.weekday == Some(weekday)
  }

  /** `getRuleForWeekday`: the first weekly rule of that weekday. */
  function RuleFor(rules: seq<RuleInput>, weekday: int): (r: Option<RuleInput>)
    ensures r.None? <==> forall k :: 0 <= k < |rules| ==> !IsWeeklyFor(rules[k], weekday)
    ensures r.Some? ==> exists k :: 0 <= k < |rules| && rules[k] == r.value && IsWeeklyFor(r.value, weekday)
                                    && forall j :: 0 <= j < k ==> !IsWeeklyFor(rules[j], weekday)
  {
    Seqs.Find(rules, (rule: RuleInput) => IsWeeklyFor(rule, weekday))
  }

  /** The fields `updateRule` is used on, with their new values. */
  datatype FieldValue =
    | StartTime(start: string)
    | EndTime(end: string)
    | SlotDuration(minutes: int)
    | IsActive(active: bool)

  function Set(rule: RuleInput, v: FieldValue): (r: RuleInput)
    ensures r.ruleType == rule.ruleType && r.weekday == rule.weekday
  {
    match v
    case StartTime(s) => rule.(startTime := s)
    case EndTime(e) => rule.(endTime := e)
    case SlotDuration(m) => rule.(slotDurationMinutes := m)
    case IsActive(a) => rule.(isActive := Some(a))
  }

  /** `updateRule`: the field changes on every weekly rule of the weekday, and no other
      rule changes. */
  function UpdateRule(rules: seq<RuleInput>, weekday: int, v: FieldValue): (r: seq<RuleInput>)
    ensures |r| == |rules|
    ensures forall k :: 0 <= k < |rules| ==>
              r[k] == if IsWeeklyFor(rules[k], weekday) then Set(rules[k], v) else rules[k]
  {
    seq(|rules|, k requires 0 <= k < |rules| =>
      if IsWeeklyFor(rules[k], weekday) then Set(rules[k], v) else rules[k])
  }

  /** After an update, the weekday's rule is its old rule with the field set. */
  lemma UpdatedRuleFor(rules: seq<RuleInput>, weekday: int, v: FieldValue)
    ensures RuleFor(UpdateRule(rules, weekday, v), weekday)
            == if RuleFor(rules, weekday).Some? then Some(Set(RuleFor(rules, weekday).value, v)) else None
  {
    var r := UpdateRule(rules, weekday, v);
    forall k | 0 <= k < |rules| ensures IsWeeklyFor(r[k], weekday) <==> IsWeeklyFor(rules[k], weekday) {}
    if RuleFor(rules, weekday).Some? {
      var k :| 0 <= k < |rules| && rules[k] == RuleFor(rules, weekday).value && IsWeeklyFor(rules[k], weekday)
               && forall j :: 0 <= j < k ==> !IsWeeklyFor(rules[j], weekday);
      RuleForIs(r, weekday, k);
    }
  }

  /** An update leaves every other weekday's rule as it was. */
  lemma UpdateKeepsOtherDays(rules: seq<RuleInput>, weekday: int, v: FieldValue, other: int)
    requires other != weekday
    ensures RuleFor(UpdateRule(rules, weekday, v), other) == RuleFor(rules, other)
  {
    var r := UpdateRule(rules, weekday, v);
    forall k | 0 <= k < |rules| ensures IsWeeklyFor(r[k], other) <==> IsWeeklyFor(rules[k], other) {}
    if RuleFor(rules, other).Some? {
      var k :| 0 <= k < |rules| && rules[k] == RuleFor(rules, other).value && IsWeeklyFor(rules[k], other)
               && forall j :: 0 <= j < k ==> !IsWeeklyFor(rules[j], other);
      assert r[k] == rules[k];
      RuleForIs(r, other, k);
    }
  }

  /** The first weekly rule of a weekday is the rule at the first such position. */
  lemma RuleForIs(rules: seq<RuleInput>, weekday: int, k: int)
    requires 0 <= k < |rules| && IsWeeklyFor(rules[k], weekday)
    requires forall j :: 0 <= j < k ==> !IsWeeklyFor(rules[j], weekday)
    ensures RuleFor(rules, weekday) == Some(rules[k])
  {
    var i :| 0 <= i < |rules| && rules[i] == RuleFor(rules, weekday).value && IsWeeklyFor(rules[i], weekday)
             && forall j :: 0 <= j < i ==> !IsWeeklyFor(rules[j], weekday);
    assert i == k;
  }

  /** The rule a newly enabled day gets: weekly, 09:00 to 18:00, 30-minute slots, active. */
  function NewRule(weekday: int): RuleInput {
    RuleInput(Weekly, Some(weekday), None, "09:00", "18:00", 30, Some(true))
  }

  /** `toggleDay`: enabling a day without a rule adds the default rule; otherwise the
      day's rule is marked active or inactive, and never removed. */
  function ToggleDay(rules: seq<RuleInput>, weekday: int, enabled: bool): (r: seq<RuleInput>)
    ensures enabled && RuleFor(rules, weekday).None? ==> r == rules + [NewRule(weekday)]
    ensures !(enabled && RuleFor(rules, weekday).None?) ==> r == UpdateRule(rules, weekday, IsActive(enabled))
  {
    if enabled && RuleFor(rules, weekday).None? then rules + [NewRule(weekday)]
    else UpdateRule(rules, weekday, IsActive(enabled))
  }

  /** After a toggle the day has a rule exactly when it is enabled or had one, the rule
      is active exactly when the day was enabled, and no rule is lost. */
  lemma ToggleDayEffect(rules: seq<RuleInput>, weekday: int, enabled: bool)
    ensures |ToggleDay(rules, weekday, enabled)| >= |rules|
    ensures RuleFor(ToggleDay(rules, weekday, enabled), weekday).Some? <==> enabled || RuleFor(rules, weekday).Some?
    ensures RuleFor(ToggleDay(rules, weekday, enabled), weekday).Some? ==>
              RuleFor(ToggleDay(rules, weekday, enabled), weekday).value.isActive == Some(enabled)
  {
    var r := ToggleDay(rules, weekday, enabled);
    if enabled && RuleFor(rules, weekday).None? {
      assert r[|rules|] == NewRule(weekday);
      RuleForIs(r, weekday, |rules|);
    } else {
      UpdatedRuleFor(rules, weekday, IsActive(enabled));
    }
  }

  /** The rule `copyHoursToAll` gives one weekday from the source rule. */
  function CopiedRule(rules: seq<RuleInput>, source: RuleInput, sourceWeekday: int, weekday: int): (r: RuleInput)
  {
    if weekday == sourceWeekday then source
    else match RuleFor(rules, weekday)
      case Some(existing) =>
        existing.(startTime := source.startTime, endTime := source.endTime,
                  slotDurationMinutes := source.slotDurationMinutes)
      case None =>
        RuleInput(Weekly, Some(weekday), None, source.startTime, source.endTime, source.slotDurationMinutes, Some(true))
  }

  /** `copyHoursToAll`: nothing happens when the source weekday has no rule; otherwise
      the list becomes one weekly rule per weekday in `Days` order, the source's as it
      was and every other day with the source's times and slot length. */
  function CopyHoursToAll(rules: seq<RuleInput>, sourceWeekday: int): (r: seq<RuleInput>)
    ensures RuleFor(rules, sourceWeekday).None? ==> r == rules
    ensures RuleFor(rules, sourceWeekday).Some? ==>
              var source := RuleFor(rules, sourceWeekday).value;
              && |r| == |Days|
              && forall k :: 0 <= k < |Days| ==>
                   && IsWeeklyFor(r[k], Days[k])
                   && (Days[k] == sourceWeekday ==> r[k] == source)
                   && (Days[k] != sourceWeekday ==>
                         && r[k].startTime == source.startTime && r[k].endTime == source.endTime
                         && r[k].slotDurationMinutes == source.slotDurationMinutes)
  {
    match RuleFor(rules, sourceWeekday)
    case None => rules
    case Some(source) =>
      seq(|Days|, k requires 0 <= k < |Days| => CopiedRule(rules, source, sourceWeekday, Days[k]))
  }

  /** After a copy every weekday's rule is the one at its place in `Days`. */
  lemma CopiedRuleFor(rules: seq<RuleInput>, sourceWeekday: int, k: int)
    requires RuleFor(rules, sourceWeekday).Some? && 0 <= k < |Days|
    ensures RuleFor(CopyHoursToAll(rules, sourceWeekday), Days[k]) == Some(CopyHoursToAll(rules, sourceWeekday)[k])
  {
    var r := CopyHoursToAll(rules, sourceWeekday);
    forall j | 0 <= j < k ensures !IsWeeklyFor(r[j], Days[k]) {
      assert Days[j] != Days[k];
    }
    RuleForIs(r, Days[k], k);
  }
}
