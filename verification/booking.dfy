/** The booking entity: a client's reservation of a professional's time at a unit, its
    status changes and the checks the booking use cases run before accepting it.
    Instants are milliseconds since the epoch; `now` is a parameter. */
module Booking {
  import opened Wrappers
  import DateUtils
  import Numbers

  datatype Status = Confirmed | Cancelled | Completed | NoShow

  datatype BookingProps = BookingProps(
    id: string,
    userId: string,
    clientId: string,
    unitId: string,
    serviceId: Option<string>,
    priceCents: Option<int>,
    notes: Option<string>,
    startAt: int,
    endAt: int,
    status: Status)

  datatype BookingError =
    | InvalidTimeRange
    | BookingInPast
    | BookingTooClose
    | ExceedsMaxDuration
    | InvalidDurationForSlot

  /** The half-open span of time a booking occupies. */
  function Span(b: BookingProps): DateUtils.Interval {
    DateUtils.Interval(b.startAt, b.endAt)
  }

  class BookingEntity {
    var props: BookingProps
    /** When the booking was last changed. */
    var updatedAt: int

    /** A new booking is confirmed unless a status is given. */
    constructor (id: string, userId: string, clientId: string, unitId: string,
                 serviceId: Option<string>, priceCents: Option<int>, notes: Option<string>,
                 startAt: int, endAt: int, status: Option<Status>, now: int)
      ensures props == BookingProps(id, userId, clientId, unitId, serviceId, priceCents, notes,
                                    startAt, endAt, status.GetOr(Confirmed))
      ensures updatedAt == now
    {
      props := BookingProps(id, userId, clientId, unitId, serviceId, priceCents, notes,
                            startAt, endAt, status.GetOr(Confirmed));
      updatedAt := now;
    }

    method Complete(now: int)
      modifies this
      ensures props == old(props).(status := Completed)
      ensures updatedAt == now
    {
      props := props.(status := Completed);
      updatedAt := now;
    }

    method MarkNoShow(now: int)
      modifies this
      ensures props == old(props).(status := NoShow)
      ensures updatedAt == now
    {
      props := props.(status := NoShow);
      updatedAt := now;
    }

    method Cancel(now: int)
      modifies this
      ensures props == old(props).(status := Cancelled)
      ensures updatedAt == now
    {
      props := props.(status := Cancelled);
      updatedAt := now;
    }

    /** Two bookings overlap when each starts before the other ends. */
    predicate OverlapsWith(other: BookingEntity)
      reads this, other
    {
      props.startAt < other.props.endAt && props.endAt > other.props.startAt
    }
  }

  /** Overlap of bookings is overlap of their spans, so it is symmetric and bookings that
      only touch do not overlap. */
  lemma OverlapsWithSpans(a: BookingEntity, b: BookingEntity)
    ensures a.OverlapsWith(b) <==> DateUtils.Overlaps(Span(a.props), Span(b.props))
    ensures a.OverlapsWith(b) <==> b.OverlapsWith(a)
    ensures a.props.endAt <= b.props.startAt ==> !a.OverlapsWith(b)
  {
    DateUtils.OverlapsSymmetric(Span(a.props), Span(b.props));
  }

  /** Fails when the start or the end lies before `now`. */
  function ValidateNotInPast(b: BookingProps, now: int): (r: Outcome<BookingError>)
    ensures r.Pass? <==> now <= b.startAt && now <= b.endAt
    ensures r.Fail? ==> r.error == BookingInPast
  {
    if b.startAt < now then Fail(BookingInPast)
    else if b.endAt < now then Fail(BookingInPast)
    else Pass
  }

  /** For a booking whose range is valid, only the start matters. */
  lemma NotInPastOnlyStartMatters(b: BookingProps, now: int)
    requires ValidateTimeRange(b).Pass?
    ensures ValidateNotInPast(b, now).Pass? <==> now <= b.startAt
  {
  }

  /** Fails unless the booking starts strictly before it ends. */
  function ValidateTimeRange(b: BookingProps): (r: Outcome<BookingError>)
    ensures r.Pass? <==> DateUtils.Proper(Span(b))
    ensures r.Fail? ==> r.error == InvalidTimeRange
  {
    if b.startAt >= b.endAt then Fail(InvalidTimeRange) else Pass
  }

  /** Whole minutes from `from` to `to`, rounded down. */
  function MinutesBetween(from: int, to: int): (m: int)
    ensures m * DateUtils.MsPerMinute <= to - from < (m + 1) * DateUtils.MsPerMinute
  {
    Numbers.FloorDiv(to - from, DateUtils.MsPerMinute)
  }

  function DurationMinutes(b: BookingProps): int {
    MinutesBetween(b.startAt, b.endAt)
  }

  /** Fails when fewer than `minAdvance` whole minutes separate `now` from the start:
      exactly when the start is less than `minAdvance` minutes away. */
  function ValidateMinimumAdvance(b: BookingProps, now: int, minAdvance: int): (r: Outcome<BookingError>)
    ensures r.Fail? <==> b.startAt < now + minAdvance * DateUtils.MsPerMinute
    ensures r.Fail? ==> r.error == BookingTooClose
  {
    if MinutesBetween(now, b.startAt) < minAdvance then Fail(BookingTooClose) else Pass
  }

  /** Fails when the duration in whole minutes exceeds `maxDuration`: exactly when the
      booking lasts at least `maxDuration + 1` minutes. */
  function ValidateMaxDuration(b: BookingProps, maxDuration: int): (r: Outcome<BookingError>)
    ensures r.Fail? <==> b.endAt - b.startAt >= (maxDuration + 1) * DateUtils.MsPerMinute
    ensures r.Fail? ==> r.error == ExceedsMaxDuration
  {
    if DurationMinutes(b) > maxDuration then Fail(ExceedsMaxDuration) else Pass
  }

  /** Fails unless the duration in whole minutes is a multiple of the slot length. A slot
      length of zero makes JavaScript's remainder NaN, which is never zero, so it fails. */
  function ValidateIsMultipleOfSlot(b: BookingProps, slotMinutes: int): (r: Outcome<BookingError>)
    ensures r.Pass? ==> slotMinutes != 0
    ensures slotMinutes > 0 && b.startAt <= b.endAt ==>
              (r.Pass? <==> DurationMinutes(b) % slotMinutes == 0)
    ensures r.Fail? ==> r.error == InvalidDurationForSlot
  {
    if slotMinutes == 0 then Fail(InvalidDurationForSlot)
    else if Numbers.JsRem(DurationMinutes(b), slotMinutes) != 0 then Fail(InvalidDurationForSlot)
    else Pass
  }

  /** A booking of exactly `k` slots passes the slot check. */
  lemma WholeSlotsPass(b: BookingProps, slotMinutes: int, k: nat)
    requires slotMinutes > 0
    requires b.endAt - b.startAt == k * slotMinutes * DateUtils.MsPerMinute
    ensures ValidateIsMultipleOfSlot(b, slotMinutes).Pass?
  {
    var d := DurationMinutes(b);
    assert d == k * slotMinutes by {
      var m := k * slotMinutes;
      assert b.endAt - b.startAt == m * DateUtils.MsPerMinute;
    }
    assert d == k * slotMinutes + 0;
    Numbers.MultipleMod(k, slotMinutes);
  }
}
