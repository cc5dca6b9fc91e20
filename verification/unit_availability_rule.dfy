/** A unit's opening rule: weekly (for one weekday) or for one specific date, with
    "HH:MM" opening and closing times and a slot length. The constructor and the updates
    validate before they assign, so every rule object satisfies `RuleFieldsOk`. */
module UnitAvailabilityRule {
  import opened Wrappers
  import opened Text
  import opened DateUtils
  import opened ClockTimes

  datatype RuleType = Weekly | SpecificDate

  /** Why a rule was rejected; one constructor per message the entity throws. */
  datatype RuleError =
    | MissingWeekday
    | WeekdayOutOfRange
    | WeeklyRuleWithDate
    | MissingDate
    | MalformedDate
    | SpecificRuleWithWeekday
    | MalformedStartTime
    | MalformedEndTime
    | StartNotBeforeEnd
    | NonPositiveSlotDuration

  datatype RuleProps = RuleProps(
    unitId: string,
    ruleType: RuleType,
    weekday: Option<int>,
    date: Option<string>,
    startTime: string,
    endTime: string,
    slotDurationMinutes: int,
    isActive: bool)

  /** What the type demands: a weekly rule has a weekday 0..6 and no date; a rule for a
      specific date has a non-empty "YYYY-MM-DD" date and no weekday. */
  predicate TypeFieldsOk(ruleType: RuleType, weekday: Option<int>, date: Option<string>) {
    match ruleType
    case Weekly => weekday.Some? && 0 <= weekday.value <= 6 && date.None?
    case SpecificDate => date.Some? && IsDateString(date.value) && weekday.None?
  }

  /** Valid opening times: both clock times, the opening strictly earlier in the day. */
  predicate TimesOk(startTime: string, endTime: string) {
    IsClockTime(startTime) && IsClockTime(endTime) && ClockMinutes(startTime) < ClockMinutes(endTime)
  }

  /** Everything the constructor checks. */
  predicate RuleFieldsOk(p: RuleProps) {
    TypeFieldsOk(p.ruleType, p.weekday, p.date) && TimesOk(p.startTime, p.endTime) && p.slotDurationMinutes > 0
  }

  /** `validateTypeSpecificFields`, with the first failing check's error. */
  function ValidateTypeSpecificFields(ruleType: RuleType, weekday: Option<int>, date: Option<string>)
    : (r: Outcome<RuleError>)
    ensures r.Pass? <==> TypeFieldsOk(ruleType, weekday, date)
    ensures ruleType == Weekly && weekday.None? ==> r == Fail(MissingWeekday)
    ensures ruleType == SpecificDate && (date.None? || date.value == "") ==> r == Fail(MissingDate)
  {
    match ruleType
    case Weekly =>
      if weekday.None? then Fail(MissingWeekday)
      else if weekday.value < 0 || weekday.value > 6 then Fail(WeekdayOutOfRange)
      else if date.Some? then Fail(WeeklyRuleWithDate)
      else Pass
    case SpecificDate =>
      if date.None? || date.value == "" then Fail(MissingDate)
      else if !IsDateString(date.value) then Fail(MalformedDate)
      else if weekday.Some? then Fail(SpecificRuleWithWeekday)
      else Pass
  }

  /** `validateTimeFormat`: passes exactly the clock times 00:00 to 23:59. */
  function ValidateTimeFormat(time: string, error: RuleError): (r: Outcome<RuleError>)
    ensures r.Pass? <==> IsClockTime(time)
    ensures r.Fail? ==> r.error == error
  {
    TimePatternIsClockTime(time);
    if !MatchesTimePattern(time) then Fail(error) else Pass
  }

  /** `validateTimeRange`: the strings must compare strictly less; for clock times that is
      an opening strictly earlier in the day. */
  function ValidateTimeRange(startTime: string, endTime: string): (r: Outcome<RuleError>)
    ensures r.Pass? <==> StringLess(startTime, endTime)
    ensures IsClockTime(startTime) && IsClockTime(endTime) ==>
              (r.Pass? <==> ClockMinutes(startTime) < ClockMinutes(endTime))
    ensures r.Fail? ==> r.error == StartNotBeforeEnd
  {
    ClockOrder(startTime, endTime);
    if !StringLess(startTime, endTime) then Fail(StartNotBeforeEnd) else Pass
  }

  function ValidateSlotDuration(slotDurationMinutes: int): (r: Outcome<RuleError>)
    ensures r.Pass? <==> slotDurationMinutes > 0
    ensures r.Fail? ==> r.error == NonPositiveSlotDuration
  {
    if slotDurationMinutes <= 0 then Fail(NonPositiveSlotDuration) else Pass
  }

  /** The two checks `update_times` runs. */
  function ValidateTimes(startTime: string, endTime: string): (r: Outcome<RuleError>)
    ensures r.Pass? <==> TimesOk(startTime, endTime)
  {
    var f := ValidateTimeFormat(startTime, MalformedStartTime);
    if f.Fail? then f
    else
      var g := ValidateTimeFormat(endTime, MalformedEndTime);
      if g.Fail? then g
      else ValidateTimeRange(startTime, endTime)
  }

  /** The constructor's checks, in order. */
  function ValidateRule(p: RuleProps): (r: Outcome<RuleError>)
    ensures r.Pass? <==> RuleFieldsOk(p)
  {
    var t := ValidateTypeSpecificFields(p.ruleType, p.weekday, p.date);
    if t.Fail? then t
    else
      var u := ValidateTimes(p.startTime, p.endTime);
      if u.Fail? then u
      else ValidateSlotDuration(p.slotDurationMinutes)
  }

  class UnitAvailabilityRuleEntity {
    var props: RuleProps
    /** When the rule was last changed (`touch`). */
    var updatedAt: int

    ghost predicate Valid()
      reads this
    {
      RuleFieldsOk(props)
    }

    constructor Make(p: RuleProps, now: int)
      requires RuleFieldsOk(p)
      ensures props == p && updatedAt == now && Valid()
    {
      props := p;
      updatedAt := now;
    }

    /** `update_times`: validates, then sets both times; a rejected update changes nothing. */
    method UpdateTimes(startTime: string, endTime: string, now: int) returns (r: Outcome<RuleError>)
      requires Valid()
      modifies this
      ensures r == ValidateTimes(startTime, endTime)
      ensures r.Pass? ==> props == old(props).(startTime := startTime, endTime := endTime) && updatedAt == now
      ensures r.Fail? ==> props == old(props) && updatedAt == old(updatedAt)
      ensures Valid()
    {
      r := ValidateTimes(startTime, endTime);
      if r.Pass? {
        props := props.(startTime := startTime, endTime := endTime);
        updatedAt := now;
      }
    }

    /** `update_slot_duration`: validates, then sets the slot length. */
    method UpdateSlotDuration(slotDurationMinutes: int, now: int) returns (r: Outcome<RuleError>)
      requires Valid()
      modifies this
      ensures r.Pass? <==> slotDurationMinutes > 0
      ensures r.Pass? ==> props == old(props).(slotDurationMinutes := slotDurationMinutes) && updatedAt == now
      ensures r.Fail? ==> r.error == NonPositiveSlotDuration && props == old(props) && updatedAt == old(updatedAt)
      ensures Valid()
    {
      r := ValidateSlotDuration(slotDurationMinutes);
      if r.Pass? {
        props := props.(slotDurationMinutes := slotDurationMinutes);
        updatedAt := now;
      }
    }

    method Activate(now: int)
      requires Valid()
      modifies this
      ensures props == old(props).(isActive := true) && updatedAt == now
      ensures Valid()
    {
      props := props.(isActive := true);
      updatedAt := now;
    }

    method Deactivate(now: int)
      requires Valid()
      modifies this
      ensures props == old(props).(isActive := false) && updatedAt == now
      ensures Valid()
    {
      props := props.(isActive := false);
      updatedAt := now;
    }
  }

  /** The constructor: the checks run first and `is_active` defaults to true. */
  method CreateRule(unitId: string, ruleType: RuleType, weekday: Option<int>, date: Option<string>,
                    startTime: string, endTime: string, slotDurationMinutes: int, isActive: Option<bool>,
                    now: int)
    returns (r: Result<UnitAvailabilityRuleEntity, RuleError>)
    ensures var p := RuleProps(unitId, ruleType, weekday, date, startTime, endTime, slotDurationMinutes,
                               isActive.GetOr(true));
            (r.Success? <==> RuleFieldsOk(p))
            && (r.Failure? ==> Fail(r.error) == ValidateRule(p))
            && (r.Success? ==> fresh(r.value) && r.value.props == p && r.value.updatedAt == now && r.value.Valid())
  {
    var p := RuleProps(unitId, ruleType, weekday, date, startTime, endTime, slotDurationMinutes,
                       isActive.GetOr(true));
    var v := ValidateRule(p);
    if v.Fail? {
      return Failure(v.error);
    }
    var e := new UnitAvailabilityRuleEntity.Make(p, now);
    return Success(e);
  }

  /** A valid rule's opening and closing times, placed on any day, form a non-empty
      interval within that day. */
  lemma ValidRuleInterval(p: RuleProps, date: int)
    requires RuleFieldsOk(p)
    ensures date * MsPerDay <= At(date, p.startTime) < At(date, p.endTime) < (date + 1) * MsPerDay
  {
  }
}
