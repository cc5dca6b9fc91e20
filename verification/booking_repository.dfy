/** The in-memory booking store: a list of booking records that `create` appends to,
    `update` replaces in place and `delete` splices, and the queries the booking use
    cases ask of it. */
module BookingRepository {
  import opened Wrappers
  import opened Booking
  import DateUtils
  import Seqs

  datatype RepoError = NotFound(id: string)

  /** The first instant of a calendar day ("YYYY-MM-DDT00:00:00.000Z"). */
  function DayStart(date: int): int { date * DateUtils.MsPerDay }

  /** The last millisecond of a calendar day ("YYYY-MM-DDT23:59:59.999Z"). */
  function DayEnd(date: int): int { date * DateUtils.MsPerDay + DateUtils.MsPerDay - 1 }

  /** The inclusive window from 00:00:00.000 to 23:59:59.999 holds exactly the instants
      of that UTC day. */
  lemma DayWindow(t: int, date: int)
    ensures DayStart(date) <= t <= DayEnd(date) <==> DateUtils.DayOf(t) == date
  {
    var q, r := t / DateUtils.MsPerDay, t % DateUtils.MsPerDay;
    if DayStart(date) <= t <= DayEnd(date) {
      DateUtils.DivModDay(t, date, t - DayStart(date));
    }
  }

  predicate HasId(b: BookingProps, id: string) { b.id == id }

  /** The record the day-count queries count: a confirmed booking of `userId` that starts
      within the day. */
  predicate ConfirmedOnDay(b: BookingProps, userId: string, date: int) {
    b.userId == userId && b.status == Confirmed
    && DayStart(date) <= b.startAt && b.startAt <= DayEnd(date)
  }

  predicate ClientConfirmedOnDay(b: BookingProps, clientId: string, userId: string, date: int) {
    b.userId == userId && b.clientId == clientId && b.status == Confirmed
    && DayStart(date) <= b.startAt && b.startAt <= DayEnd(date)
  }

  /** The records of `userId` that touch the closed range [start, end], in order. */
  function InDateRange(items: seq<BookingProps>, userId: string, start: int, end: int): (r: seq<BookingProps>)
    ensures |r| <= |items|
    ensures forall b :: b in r <==> b in items && b.userId == userId && b.startAt <= end && b.endAt >= start
    ensures Seqs.SubsequenceOf(r, items)
  {
    var matches := (b: BookingProps) => b.userId == userId && b.startAt <= end && b.endAt >= start;
    Seqs.FilterIsSubsequence(items, matches);
    Seqs.Filter(items, matches)
  }

  class InMemoryBookingRepository {
    var items: seq<BookingProps>

    constructor ()
      ensures items == []
    {
      items := [];
    }

    /** Appends the booking and returns it. */
    method Create(entity: BookingProps) returns (created: BookingProps)
      modifies this
      ensures items == old(items) + [entity]
      ensures created == entity
    {
      items := items + [entity];
      created := entity;
    }

    /** Replaces the first record with the booking's id, or fails when there is none. */
    method Update(entity: BookingProps) returns (r: Result<BookingProps, RepoError>)
      modifies this
      ensures var i := Seqs.FirstIndex(old(items), b => HasId(b, entity.id));
              if i == -1 then r == Failure(NotFound(entity.id)) && items == old(items)
              else r == Success(entity) && items == old(items)[i := entity]
    {
      var i := Seqs.FirstIndex(items, b => HasId(b, entity.id));
      if i == -1 {
        r := Failure(NotFound(entity.id));
      } else {
        items := items[i := entity];
        r := Success(entity);
      }
    }

    /** Removes the first record with the id; says whether there was one. */
    method Delete(id: string) returns (deleted: bool)
      modifies this
      ensures var i := Seqs.FirstIndex(old(items), b => HasId(b, id));
              if i == -1 then !deleted && items == old(items)
              else deleted && items == Seqs.RemoveAt(old(items), i)
    {
      var i := Seqs.FirstIndex(items, b => HasId(b, id));
      if i == -1 {
        deleted := false;
      } else {
        items := Seqs.RemoveAt(items, i);
        deleted := true;
      }
    }

    /** The first record with the id, if any. */
    function FindById(id: string): (r: Option<BookingProps>)
      reads this
      ensures r.None? <==> forall b :: b in items ==> b.id != id
      ensures r.Some? ==> r.value in items && r.value.id == id
      ensures r.Some? ==> exists k :: 0 <= k < |items| && r.value == items[k] && forall j :: 0 <= j < k ==> items[j].id != id
    {
      Seqs.Find(items, b => HasId(b, id))
    }

    /** The bookings of `userId` that touch the closed range [start, end], in store order. */
    function FindByUserIdAndDateRange(userId: string, start: int, end: int): (r: seq<BookingProps>)
      reads this
      ensures forall b :: b in r <==> b in items && b.userId == userId && b.startAt <= end && b.endAt >= start
    {
      InDateRange(items, userId, start, end)
    }

    /** The bookings of `userId` that overlap the half-open range [start, end). */
    function FindOverlapping(userId: string, start: int, end: int): (r: seq<BookingProps>)
      reads this
      ensures forall b :: b in r <==> b in items && b.userId == userId
                                      && DateUtils.Overlaps(Span(b), DateUtils.Interval(start, end))
    {
      Seqs.Filter(items, (b: BookingProps) => b.userId == userId && b.startAt < end && b.endAt > start)
    }

    /** How many confirmed bookings of `userId` start on the UTC day `date`. */
    function CountByUserAndDate(userId: string, date: int): (n: nat)
      reads this
      ensures n <= |items|
    {
      |Seqs.Filter(items, b => ConfirmedOnDay(b, userId, date))|
    }

    /** How many confirmed bookings of `clientId` with `userId` start on the UTC day `date`. */
    function CountByClientAndUserAndDate(clientId: string, userId: string, date: int): (n: nat)
      reads this
      ensures n <= |items|
    {
      |Seqs.Filter(items, b => ClientConfirmedOnDay(b, clientId, userId, date))|
    }
  }

  /** A client's bookings with a professional on a day never outnumber the professional's. */
  lemma ClientCountAtMostUserCount(repo: InMemoryBookingRepository, clientId: string, userId: string, date: int)
    ensures repo.CountByClientAndUserAndDate(clientId, userId, date) <= repo.CountByUserAndDate(userId, date)
  {
    Seqs.FilterStrongerIsShorter(repo.items, b => ClientConfirmedOnDay(b, clientId, userId, date),
                                 b => ConfirmedOnDay(b, userId, date));
  }

  /** The day count counts the confirmed bookings whose start falls on that UTC day. */
  lemma CountByUserAndDateIsDayCount(repo: InMemoryBookingRepository, userId: string, date: int)
    ensures repo.CountByUserAndDate(userId, date)
         == |Seqs.Filter(repo.items, (b: BookingProps) => b.userId == userId && b.status == Confirmed
                                          && DateUtils.DayOf(b.startAt) == date)|
  {
    forall b: BookingProps {
      DayWindow(b.startAt, date);
    }
    Seqs.FilterCongruent(repo.items, b => ConfirmedOnDay(b, userId, date),
                         (b: BookingProps) => b.userId == userId && b.status == Confirmed && DateUtils.DayOf(b.startAt) == date);
  }

  /** A record appended to the store shows up in the range query exactly when it matches. */
  lemma InDateRangeAppend(items: seq<BookingProps>, b: BookingProps, userId: string, start: int, end: int)
    ensures InDateRange(items + [b], userId, start, end)
         == InDateRange(items, userId, start, end)
            + (if b.userId == userId && b.startAt <= end && b.endAt >= start then [b] else [])
  {
    Seqs.FilterAppend(items, [b], (b: BookingProps) => b.userId == userId && b.startAt <= end && b.endAt >= start);
  }
}
