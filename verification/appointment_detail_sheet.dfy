/** The appointment detail sheet's formatters: the badge of each status and the length of
    an appointment, written in hours and minutes. */
module AppointmentDetailSheet {
  import opened Wrappers
  import Seqs
  import Text
  import Numbers
  import opened DateUtils
  import opened TimeGrid

  datatype StatusStyle = StatusStyle(title: string, className: string)

  /** `statusConfig`: each status has its own title, so the badge names the status. */
  function StatusConfig(s: Status): (r: StatusStyle)
    ensures r.title == "Confirmado" <==> s == Confirmed
    ensures r.title == "Aguardando" <==> s == Pending
    ensures r.title == "Cancelado" <==> s == Cancelled
  {
    match s
    case Confirmed => StatusStyle("Confirmado", "bg-emerald-100 text-emerald-700 border-emerald-200")
    case Pending => StatusStyle("Aguardando", "bg-amber-100 text-amber-700 border-amber-200")
    case Cancelled => StatusStyle("Cancelado", "bg-red-100 text-red-700 border-red-200")
  }

  /** The label of a length in minutes: the floored hours and the remainder (which takes
      the sign of the length), "Mmin" without hours, "Hh" without minutes, "Hh Mmin"
      otherwise. */
  function DurationLabel(total: int): string {
    var hours := Numbers.FloorDiv(total, 60);
    var minutes := Numbers.JsRem(total, 60);
    if hours == 0 then Text.IntToString(minutes) + "min"
    else if minutes == 0 then Text.IntToString(hours) + "h"
    else Text.IntToString(hours) + "h " + Text.IntToString(minutes) + "min"
  }

  /** `calculateDuration`: the label of the minutes from start to end, "Mmin" under an
      hour, "Hh" for whole hours and "Hh Mmin" otherwise, which reads back as those
      minutes. */
  function CalculateDuration(startTime: string, endTime: string): (r: string)
    requires IsDigitPair(startTime) && IsDigitPair(endTime)
    ensures var total := TimeToMinutes(endTime) - TimeToMinutes(startTime);
            0 <= total < 60 ==> r == Text.NatToString(total) + "min"
    ensures var total := TimeToMinutes(endTime) - TimeToMinutes(startTime);
            total >= 60 && total % 60 == 0 ==> r == Text.NatToString(total / 60) + "h"
    ensures var total := TimeToMinutes(endTime) - TimeToMinutes(startTime);
            total >= 60 && total % 60 != 0 ==>
              r == Text.NatToString(total / 60) + "h " + Text.NatToString(total % 60) + "min"
    ensures TimeToMinutes(startTime) <= TimeToMinutes(endTime) ==>
              ParseDuration(r) == Some(TimeToMinutes(endTime) - TimeToMinutes(startTime))
  {
    var total := TimeToMinutes(endTime) - TimeToMinutes(startTime);
    assert total >= 0 ==> ParseDuration(DurationLabel(total)) == Some(total) by {
      if total >= 0 {
        DurationRoundTrip(total);
      }
    }
    assert total >= 0 ==> DurationLabelShape(total) by {
      if total >= 0 {
        DurationLabelForms(total);
      }
    }
    DurationLabel(total)
  }

  /** The three forms of the label of a length that is not negative. */
  predicate DurationLabelShape(total: nat) {
    && (total < 60 ==> DurationLabel(total) == Text.NatToString(total) + "min")
    && (total >= 60 && total % 60 == 0 ==> DurationLabel(total) == Text.NatToString(total / 60) + "h")
    && (total >= 60 && total % 60 != 0 ==>
          DurationLabel(total) == Text.NatToString(total / 60) + "h " + Text.NatToString(total % 60) + "min")
  }

  lemma DurationLabelForms(total: nat)
    ensures DurationLabelShape(total)
  {
  }

  /** Reading a label back: "Mmin", "Hh" or "Hh Mmin" with decimal H and M. */
  function ParseDuration(text: string): (r: Option<nat>) {
    if |text| >= 3 && text[|text| - 3..] == "min" then ParseMinutesBody(text[..|text| - 3])
    else if |text| >= 2 && text[|text| - 1] == 'h' && Text.AllDigits(text[..|text| - 1]) then
      Some(60 * Text.DecimalValue(text[..|text| - 1]))
    else None
  }

  /** What comes before "min": "M" or "Hh M". */
  function ParseMinutesBody(body: string): (r: Option<nat>) {
    var k := Seqs.IndexOf(body, 'h');
    if k == -1 then
      if |body| > 0 && Text.AllDigits(body) then Some(Text.DecimalValue(body)) else None
    else if 0 < k && k + 2 < |body| && body[k + 1] == ' '
            && Text.AllDigits(body[..k]) && Text.AllDigits(body[k + 2..]) then
      Some(60 * Text.DecimalValue(body[..k]) + Text.DecimalValue(body[k + 2..]))
    else None
  }

  /** A length that is not negative reads back from its label. */
  lemma DurationRoundTrip(total: nat)
    ensures ParseDuration(DurationLabel(total)) == Some(total)
  {
    if total < 60 {
      MinutesRoundTrip(total);
    } else if total % 60 == 0 {
      HoursRoundTrip(total);
    } else {
      HoursMinutesRoundTrip(total);
    }
  }

  lemma MinutesRoundTrip(total: nat)
    requires total < 60
    ensures ParseDuration(DurationLabel(total)) == Some(total)
  {
    var ms := Text.NatToString(total);
    assert DurationLabel(total) == ms + "min";
    MinutesRead(ms);
  }

  lemma HoursRoundTrip(total: nat)
    requires total >= 60 && total % 60 == 0
    ensures ParseDuration(DurationLabel(total)) == Some(total)
  {
    var hs := Text.NatToString(total / 60);
    assert DurationLabel(total) == hs + "h";
    HoursRead(hs);
  }

  lemma HoursMinutesRoundTrip(total: nat)
    requires total >= 60 && total % 60 != 0
    ensures ParseDuration(DurationLabel(total)) == Some(total)
  {
    var hs, ms := Text.NatToString(total / 60), Text.NatToString(total % 60);
    assert DurationLabel(total) == hs + "h " + ms + "min";
    HoursMinutesRead(hs, ms);
  }

  lemma MinutesRead(ms: string)
    requires |ms| > 0 && Text.AllDigits(ms)
    ensures ParseDuration(ms + "min") == Some(Text.DecimalValue(ms))
  {
    var text := ms + "min";
    assert text[|text| - 3..] == "min" && text[..|text| - 3] == ms;
    assert 'h' !in ms;
  }

  lemma HoursRead(hs: string)
    requires |hs| > 0 && Text.AllDigits(hs)
    ensures ParseDuration(hs + "h") == Some(60 * Text.DecimalValue(hs))
  {
    var text := hs + "h";
    assert text[..|text| - 1] == hs;
    assert text[|text| - 1] == 'h';
    if |text| >= 3 {
      assert text[|text| - 3..][2] == 'h';
    }
  }

  lemma HoursMinutesRead(hs: string, ms: string)
    requires |hs| > 0 && Text.AllDigits(hs) && |ms| > 0 && Text.AllDigits(ms)
    ensures ParseDuration(hs + "h " + ms + "min") == Some(60 * Text.DecimalValue(hs) + Text.DecimalValue(ms))
  {
    var text := hs + "h " + ms + "min";
    var body := hs + "h " + ms;
    assert text[|text| - 3..] == "min" && text[..|text| - 3] == body;
    HoursMinutesBodyRead(hs, ms);
  }

  lemma HoursMinutesBodyRead(hs: string, ms: string)
    requires |hs| > 0 && Text.AllDigits(hs) && |ms| > 0 && Text.AllDigits(ms)
    ensures ParseMinutesBody(hs + "h " + ms) == Some(60 * Text.DecimalValue(hs) + Text.DecimalValue(ms))
  {
    var body := hs + "h " + ms;
    HourMarkAt(hs, ms);
    var k := Seqs.IndexOf(body, 'h');
    assert k == |hs| && body[..k] == hs && body[k + 2..] == ms;
    assert 0 < k && k + 2 < |body| && body[k + 1] == ' ';
  }

  /** In "Hh M" the first 'h' is the one after the hours. */
  lemma HourMarkAt(hs: string, ms: string)
    requires Text.AllDigits(hs)
    ensures var body := hs + "h " + ms;
            && Seqs.IndexOf(body, 'h') == |hs|
            && body[|hs| + 1] == ' ' && body[..|hs|] == hs && body[|hs| + 2..] == ms
  {
    var body := hs + "h " + ms;
    assert body[|hs|] == 'h';
    assert forall k :: 0 <= k < |hs| ==> body[k] == hs[k];
    assert body[..|hs|] == hs && body[|hs| + 2..] == ms;
  }

  /** A length that is negative and not a whole number of hours is shown with the floored
      hours and the truncated remainder: -30 minutes read "-1h -30min". */
  lemma NegativeDurationLabel()
    ensures DurationLabel(-30) == "-1h -30min"
  {
    assert Text.NatToString(1) == "1";
    assert Text.NatToString(30) == "30" by {
      assert Text.NatToString(3) == "3" && Text.NatToString(0) == "0";
    }
  }
}
