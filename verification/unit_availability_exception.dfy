/** A unit's exception for one date: a block closes the day, an override replaces the day's
    opening with one interval and slot length. Absent optional fields are stored as "" or 0
    and read back as absent. */
module UnitAvailabilityException {
  import opened Wrappers
  import opened Text
  import opened DateUtils
  import opened ClockTimes

  datatype ExceptionType = Block | Override

  /** Why an exception or an update of it was rejected. */
  datatype ExceptionError =
    | MalformedDate
    | BlockWithStartTime
    | BlockWithEndTime
    | BlockWithSlotDuration
    | OverrideWithoutStartTime
    | OverrideWithoutEndTime
    | OverrideWithoutSlotDuration
    | MalformedStartTime
    | MalformedEndTime
    | StartNotBeforeEnd
    | NonPositiveSlotDuration
    | NotAnOverride

  /** The stored fields: "" and 0 stand for an absent time, slot length or reason. */
  datatype ExceptionProps = ExceptionProps(
    unitId: string,
    date: string,
    exceptionType: ExceptionType,
    startTime: string,
    endTime: string,
    slotDurationMinutes: int,
    reason: string)

  /** JavaScript truthiness of an optional string and an optional number (`!x` fails). */
  predicate PresentString(s: Option<string>) { s.Some? && s.value != "" }
  predicate PresentNumber(n: Option<int>) { n.Some? && n.value != 0 }

  /** Valid override fields: clock times, the start strictly earlier, a positive length. */
  predicate OverrideOk(startTime: string, endTime: string, slotDurationMinutes: int) {
    IsClockTime(startTime) && IsClockTime(endTime) && ClockMinutes(startTime) < ClockMinutes(endTime)
    && slotDurationMinutes > 0
  }

  /** What the constructor accepts: a "YYYY-MM-DD" date; a block with none of the three
      override fields; an override with all three, valid. */
  predicate CreationOk(date: string, exceptionType: ExceptionType, startTime: Option<string>,
                       endTime: Option<string>, slotDurationMinutes: Option<int>) {
    IsDateString(date)
    && match exceptionType
       case Block => startTime.None? && endTime.None? && slotDurationMinutes.None?
       case Override =>
         startTime.Some? && endTime.Some? && slotDurationMinutes.Some?
         && OverrideOk(startTime.value, endTime.value, slotDurationMinutes.value)
  }

  /** The invariant of a stored exception. */
  predicate PropsOk(p: ExceptionProps) {
    IsDateString(p.date)
    && match p.exceptionType
       case Block => p.startTime == "" && p.endTime == "" && p.slotDurationMinutes == 0
       case Override => OverrideOk(p.startTime, p.endTime, p.slotDurationMinutes)
  }

  /** `validateTimeFormat`, `validateTimeRange` and the positive-length check of an
      override, in order. */
  function ValidateOverrideFields(startTime: string, endTime: string, slotDurationMinutes: int)
    : (r: Outcome<ExceptionError>)
    ensures r.Pass? <==> OverrideOk(startTime, endTime, slotDurationMinutes)
  {
    TimePatternIsClockTime(startTime);
    TimePatternIsClockTime(endTime);
    ClockOrder(startTime, endTime);
    if !MatchesTimePattern(startTime) then Fail(MalformedStartTime)
    else if !MatchesTimePattern(endTime) then Fail(MalformedEndTime)
    else if !StringLess(startTime, endTime) then Fail(StartNotBeforeEnd)
    else if slotDurationMinutes <= 0 then Fail(NonPositiveSlotDuration)
    else Pass
  }

  /** The constructor's checks: `validateDateFormat`, then `validateTypeSpecificFields`. */
  function ValidateException(date: string, exceptionType: ExceptionType, startTime: Option<string>,
                             endTime: Option<string>, slotDurationMinutes: Option<int>)
    : (r: Outcome<ExceptionError>)
    ensures r.Pass? <==> CreationOk(date, exceptionType, startTime, endTime, slotDurationMinutes)
    ensures !IsDateString(date) ==> r == Fail(MalformedDate)
  {
    if !IsDateString(date) then Fail(MalformedDate)
    else match exceptionType
      case Block =>
        if startTime.Some? then Fail(BlockWithStartTime)
        else if endTime.Some? then Fail(BlockWithEndTime)
        else if slotDurationMinutes.Some? then Fail(BlockWithSlotDuration)
        else Pass
      case Override =>
        if !PresentString(startTime) then Fail(OverrideWithoutStartTime)
        else if !PresentString(endTime) then Fail(OverrideWithoutEndTime)
        else if !PresentNumber(slotDurationMinutes) then Fail(OverrideWithoutSlotDuration)
        else ValidateOverrideFields(startTime.value, endTime.value, slotDurationMinutes.value)
  }

  /** The stored form of the creation input: absent fields become "" and 0. */
  function Stored(unitId: string, date: string, exceptionType: ExceptionType, startTime: Option<string>,
                  endTime: Option<string>, slotDurationMinutes: Option<int>, reason: Option<string>)
    : (p: ExceptionProps)
    ensures CreationOk(date, exceptionType, startTime, endTime, slotDurationMinutes) ==> PropsOk(p)
  {
    ExceptionProps(unitId, date, exceptionType, startTime.GetOr(""), endTime.GetOr(""),
                   slotDurationMinutes.GetOr(0), reason.GetOr(""))
  }

  /** `x || undefined` for a stored string. */
  function ReadString(s: string): (r: Option<string>)
    ensures r.None? <==> s == ""
    ensures r.Some? ==> r.value == s
  {
    if s == "" then None else Some(s)
  }

  /** `x || undefined` for a stored number. */
  function ReadNumber(n: int): (r: Option<int>)
    ensures r.None? <==> n == 0
    ensures r.Some? ==> r.value == n
  {
    if n == 0 then None else Some(n)
  }

  class UnitAvailabilityExceptionEntity {
    var props: ExceptionProps
    /** When the exception was last changed (`touch`). */
    var updatedAt: int

    ghost predicate Valid()
      reads this
    {
      PropsOk(props)
    }

    constructor Make(p: ExceptionProps, now: int)
      requires PropsOk(p)
      ensures props == p && updatedAt == now && Valid()
    {
      props := p;
      updatedAt := now;
    }

    function StartTime(): Option<string> reads this { ReadString(props.startTime) }
    function EndTime(): Option<string> reads this { ReadString(props.endTime) }
    function SlotDurationMinutes(): Option<int> reads this { ReadNumber(props.slotDurationMinutes) }
    function Reason(): Option<string> reads this { ReadString(props.reason) }

    /** `update_override_times`: only for overrides; validates, then sets all three. */
    method UpdateOverrideTimes(startTime: string, endTime: string, slotDurationMinutes: int, now: int)
      returns (r: Outcome<ExceptionError>)
      requires Valid()
      modifies this
      ensures r.Pass? <==> old(props).exceptionType == Override && OverrideOk(startTime, endTime, slotDurationMinutes)
      ensures old(props).exceptionType == Block ==> r == Fail(NotAnOverride)
      ensures r.Pass? ==> props == old(props).(startTime := startTime, endTime := endTime,
                                              slotDurationMinutes := slotDurationMinutes)
                          && updatedAt == now
      ensures r.Fail? ==> props == old(props) && updatedAt == old(updatedAt)
      ensures Valid()
    {
      if props.exceptionType != Override {
        return Fail(NotAnOverride);
      }
      r := ValidateOverrideFields(startTime, endTime, slotDurationMinutes);
      if r.Pass? {
        props := props.(startTime := startTime, endTime := endTime, slotDurationMinutes := slotDurationMinutes);
        updatedAt := now;
      }
    }

    /** `update_reason`: any string, "" reading back as absent. */
    method UpdateReason(reason: string, now: int)
      requires Valid()
      modifies this
      ensures props == old(props).(reason := reason) && updatedAt == now
      ensures Reason() == (if reason == "" then None else Some(reason))
      ensures Valid()
    {
      props := props.(reason := reason);
      updatedAt := now;
    }
  }

  /** The constructor: the checks run first; absent fields are stored as "" and 0. */
  method CreateException(unitId: string, date: string, exceptionType: ExceptionType, startTime: Option<string>,
                         endTime: Option<string>, slotDurationMinutes: Option<int>, reason: Option<string>,
                         now: int)
    returns (r: Result<UnitAvailabilityExceptionEntity, ExceptionError>)
    ensures r.Success? <==> CreationOk(date, exceptionType, startTime, endTime, slotDurationMinutes)
    ensures r.Failure? ==> Fail(r.error) == ValidateException(date, exceptionType, startTime, endTime, slotDurationMinutes)
    ensures r.Success? ==>
              fresh(r.value) && r.value.updatedAt == now && r.value.Valid()
              && r.value.props == Stored(unitId, date, exceptionType, startTime, endTime, slotDurationMinutes, reason)
  {
    var v := ValidateException(date, exceptionType, startTime, endTime, slotDurationMinutes);
    if v.Fail? {
      return Failure(v.error);
    }
    var e := new UnitAvailabilityExceptionEntity.Make(
      Stored(unitId, date, exceptionType, startTime, endTime, slotDurationMinutes, reason), now);
    return Success(e);
  }

  /** Reading back what was stored: an accepted input's optional fields come back as given,
      an empty reason as absent. */
  lemma StoredReadBack(unitId: string, date: string, exceptionType: ExceptionType, startTime: Option<string>,
                       endTime: Option<string>, slotDurationMinutes: Option<int>, reason: Option<string>)
    requires CreationOk(date, exceptionType, startTime, endTime, slotDurationMinutes)
    ensures var p := Stored(unitId, date, exceptionType, startTime, endTime, slotDurationMinutes, reason);
            ReadString(p.startTime) == startTime
            && ReadString(p.endTime) == endTime
            && ReadNumber(p.slotDurationMinutes) == slotDurationMinutes
            && ReadString(p.reason) == (if reason == Some("") then None else reason)
  {
  }

  /** A stored override always reads back all three of its fields; a block reads back none. */
  lemma ValidExceptionFields(p: ExceptionProps)
    requires PropsOk(p)
    ensures p.exceptionType == Override ==>
              ReadString(p.startTime).Some? && ReadString(p.endTime).Some? && ReadNumber(p.slotDurationMinutes).Some?
    ensures p.exceptionType == Block ==>
              ReadString(p.startTime).None? && ReadString(p.endTime).None? && ReadNumber(p.slotDurationMinutes).None?
  {
  }
}
