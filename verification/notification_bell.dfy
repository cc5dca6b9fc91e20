/** The notification bell's two formatters: how long ago a notification arrived, in
    coarse buckets, and the colour of its type marker.

    The elapsed time is a parameter: the number of milliseconds from the notification's
    date to the present moment. */
module NotificationBell {
  import Text
  import Numbers

  const MsPerMinute: int := 60000
  const MsPerHour: int := 3600000
  const MsPerDay: int := 86400000

  /** The bucket an elapsed time falls into, with the count the label shows. */
  datatype Ago =
    | JustNow
    | MinutesAgo(minutes: int)
    | HoursAgo(hours: int)
    | Yesterday
    | DaysAgo(days: int)

  /** The order of the buckets, from the most recent. */
  function Rank(a: Ago): nat {
    match a
    case JustNow => 0
    case MinutesAgo(_) => 1
    case HoursAgo(_) => 2
    case Yesterday => 3
    case DaysAgo(_) => 4
  }

  /** The tests of `formatTime` on the floored minutes, hours and days, in order. Each
      bucket covers one range of elapsed time, and its count is the elapsed time in
      whole units. */
  function Classify(diffMs: int): (a: Ago)
    ensures a == JustNow <==> diffMs < MsPerMinute
    ensures a.MinutesAgo? <==> MsPerMinute <= diffMs < MsPerHour
    ensures a.HoursAgo? <==> MsPerHour <= diffMs < MsPerDay
    ensures a == Yesterday <==> MsPerDay <= diffMs < 2 * MsPerDay
    ensures a.DaysAgo? <==> 2 * MsPerDay <= diffMs
    ensures a.MinutesAgo? ==> 1 <= a.minutes < 60 && a.minutes * MsPerMinute <= diffMs < (a.minutes + 1) * MsPerMinute
    ensures a.HoursAgo? ==> 1 <= a.hours < 24 && a.hours * MsPerHour <= diffMs < (a.hours + 1) * MsPerHour
    ensures a.DaysAgo? ==> 2 <= a.days && a.days * MsPerDay <= diffMs < (a.days + 1) * MsPerDay
  {
    var minutes := Numbers.FloorDiv(diffMs, MsPerMinute);
    var hours := Numbers.FloorDiv(diffMs, MsPerHour);
    var days := Numbers.FloorDiv(diffMs, MsPerDay);
    if minutes < 1 then JustNow
    else if minutes < 60 then MinutesAgo(minutes)
    else if hours < 24 then HoursAgo(hours)
    else if days == 1 then Yesterday
    else DaysAgo(days)
  }

  /** A longer elapsed time never falls into a more recent bucket. */
  lemma ClassifyMonotone(d1: int, d2: int)
    requires d1 <= d2
    ensures Rank(Classify(d1)) <= Rank(Classify(d2))
  {
  }

  /** The label of a bucket: "Agora" and "Ontem" name their buckets alone, and the
      others read "Ha " and a count. */
  function Label(a: Ago): (r: string)
    ensures r == "Agora" <==> a.JustNow?
    ensures r == "Ontem" <==> a.Yesterday?
    ensures a.MinutesAgo? || a.HoursAgo? || a.DaysAgo? ==> Text.IsPrefix("Ha ", r)
  {
    match a
    case JustNow => "Agora"
    case MinutesAgo(m) => "Ha " + Text.IntToString(m) + " min"
    case HoursAgo(h) => "Ha " + Text.IntToString(h) + " hora" + (if h > 1 then "s" else "")
    case Yesterday => "Ontem"
    case DaysAgo(d) => "Ha " + Text.IntToString(d) + " dias"
  }

  /** `formatTime`: "Agora" for less than a minute (and for a date in the future), then
      whole minutes, whole hours, "Ontem" for the second day, whole days. */
  function FormatTime(diffMs: int): (r: string)
    ensures r == "Agora" <==> diffMs < MsPerMinute
    ensures r == "Ontem" <==> MsPerDay <= diffMs < 2 * MsPerDay
    ensures MsPerHour <= diffMs < 2 * MsPerHour ==> r == "Ha 1 hora"
  {
    Label(Classify(diffMs))
  }

  /** `getTypeColor`: one colour per known type, the primary colour for "system" and any
      other type. */
  function TypeColor(notificationType: string): (r: string)
    ensures r == "bg-primary" <==> notificationType !in {"appointment", "payment", "message", "reminder"}
  {
    match notificationType
    case "appointment" => "bg-emerald-500"
    case "payment" => "bg-amber-500"
    case "message" => "bg-blue-500"
    case "reminder" => "bg-purple-500"
    case _ => "bg-primary"
  }
}
