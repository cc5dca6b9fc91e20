/** The agenda page's state: the selected day, the filters, the appointments and the
    detail sheet, with the handlers that move, confirm and cancel appointments and the
    filtered list the grid shows. Days are day numbers; toasts are not modelled. */
module Agenda {
  import opened Wrappers
  import Text
  import Seqs
  import opened DateUtils
  import opened TimeGrid

  /** The appointments the page starts with. Fields the page does not read (e-mail,
      client since, number of visits, notes) are not part of `Appointment`. */
  const MockAppointments: seq<Appointment> := [
    Appointment("1", "Maria Santos", "(11) 99999-1234", "Corte de Cabelo", "João Santos", "09:00", "10:00", Confirmed, 80),
    Appointment("2", "Ana Oliveira", "(11) 98888-5678", "Coloração", "Maria Silva", "09:30", "11:30", Pending, 150),
    Appointment("3", "Carlos Lima", "(11) 97777-9012", "Manicure", "Ana Oliveira", "10:00", "11:00", Confirmed, 45),
    Appointment("4", "Beatriz Costa", "(11) 96666-3456", "Pedicure", "João Santos", "14:00", "15:30", Confirmed, 55),
    Appointment("5", "Roberto Alves", "(11) 95555-7890", "Corte de Cabelo", "Maria Silva", "14:00", "14:30", Cancelled, 80),
    Appointment("6", "Fernanda Souza", "(11) 94444-2345", "Coloração", "Ana Oliveira", "16:00", "18:00", Pending, 180)
  ]

  const MockBlockedTimes: seq<BlockedTime> := [
    BlockedTime("block1", "12:00", "13:00", "Almoço"),
    BlockedTime("block2", "18:30", "19:00", "Intervalo")
  ]

  const AgendaWorkShift: WorkShift := WorkShift(9, 20)

  datatype Filters = Filters(selectedProfessional: string, selectedService: string, showOnlyConfirmed: bool)

  const DefaultFilters: Filters := Filters("all", "all", false)

  /** The professional and service each filter key stands for. */
  const ProfessionalNames: map<string, string> := map["1" := "Maria Silva", "2" := "João Santos", "3" := "Ana Oliveira"]
  const ServiceNames: map<string, string> :=
    map["1" := "Corte de Cabelo", "2" := "Coloração", "3" := "Manicure", "4" := "Pedicure"]

  // ---------------------------------------------------------------------------
  // Moving an appointment

  /** Both times are "HH:MM", which is what the grid reads. */
  predicate Movable(a: Appointment) { IsDigitPair(a.startTime) && IsDigitPair(a.endTime) }

  function Duration(a: Appointment): int
    requires Movable(a)
  {
    TimeToMinutes(a.endTime) - TimeToMinutes(a.startTime)
  }

  /** `calculateNewEndTime`: the new start plus the appointment's length, written back as
      "HH:MM". While the new end stays below hour 100 the length is kept exactly. */
  function CalculateNewEndTime(apt: Appointment, newStartTime: string): (r: string)
    requires Movable(apt) && IsDigitPair(newStartTime)
    ensures var m := TimeToMinutes(newStartTime) + Duration(apt);
            0 <= m < 100 * 60 ==> IsDigitPair(r) && TimeToMinutes(r) == m
  {
    MinutesToTime(TimeToMinutes(newStartTime) + Duration(apt))
  }

  /** Dropping an appointment where it already starts gives back its own end time. */
  lemma DropInPlaceKeepsEnd(apt: Appointment)
    requires Movable(apt) && MinutesField(apt.endTime) < 60
    ensures CalculateNewEndTime(apt, apt.startTime) == apt.endTime
  {
    assert TimeToMinutes(apt.startTime) + Duration(apt) == TimeToMinutes(apt.endTime);
    TimeRoundTrip(apt.endTime);
  }

  /** The appointment moved to a new start, its end following. */
  function MovedTo(apt: Appointment, newStartTime: string): (r: Appointment)
    requires Movable(apt) && IsDigitPair(newStartTime)
    ensures r.id == apt.id && r.status == apt.status && r.startTime == newStartTime
  {
    apt.(startTime := newStartTime, endTime := CalculateNewEndTime(apt, newStartTime))
  }

  /** `handleAppointmentDrop`'s update: every appointment with the id moves, the others
      stay as they are. */
  function Dropped(appts: seq<Appointment>, id: string, newStartTime: string): (r: seq<Appointment>)
    requires IsDigitPair(newStartTime)
    requires forall a :: a in appts && a.id == id ==> Movable(a)
    ensures |r| == |appts|
    ensures forall k :: 0 <= k < |r| && appts[k].id != id ==> r[k] == appts[k]
    ensures forall k :: 0 <= k < |r| && appts[k].id == id ==> r[k] == MovedTo(appts[k], newStartTime)
  {
    seq(|appts|, k requires 0 <= k < |appts| =>
      if appts[k].id == id then MovedTo(appts[k], newStartTime) else appts[k])
  }

  /** A moved appointment keeps its length, starts at the new time and keeps its id and
      status; the others are untouched. */
  lemma DropKeepsDuration(appts: seq<Appointment>, id: string, newStartTime: string, k: int)
    requires IsDigitPair(newStartTime)
    requires forall a :: a in appts && a.id == id ==> Movable(a)
    requires 0 <= k < |appts| && appts[k].id == id
    requires TimeToMinutes(newStartTime) + Duration(appts[k]) < 100 * 60
    requires Duration(appts[k]) >= 0
    ensures var moved := Dropped(appts, id, newStartTime)[k];
            Movable(moved) && moved.startTime == newStartTime && Duration(moved) == Duration(appts[k])
            && moved.id == id && moved.status == appts[k].status
  {
    assert appts[k] in appts;
  }

  // ---------------------------------------------------------------------------
  // Status changes

  /** `handleConfirmAppointment` / `handleCancelAppointment`'s update: the appointments
      with the id get the status, the others stay as they are. */
  function WithStatus(appts: seq<Appointment>, id: string, status: Status): (r: seq<Appointment>)
    ensures |r| == |appts|
    ensures forall k :: 0 <= k < |r| ==> r[k].(status := appts[k].status) == appts[k]
    ensures forall k :: 0 <= k < |r| ==> r[k].status == if appts[k].id == id then status else appts[k].status
  {
    seq(|appts|, k requires 0 <= k < |appts| => if appts[k].id == id then appts[k].(status := status) else appts[k])
  }

  /** `handleConfirmAllPending`'s update: every pending appointment becomes confirmed. */
  function ConfirmedPending(appts: seq<Appointment>): (r: seq<Appointment>)
    ensures |r| == |appts|
    ensures forall k :: 0 <= k < |r| ==> r[k].(status := appts[k].status) == appts[k]
    ensures forall k :: 0 <= k < |r| ==> r[k].status == if appts[k].status == Pending then Confirmed else appts[k].status
    ensures forall a :: a in r ==> a.status != Pending
  {
    seq(|appts|, k requires 0 <= k < |appts| =>
      if appts[k].status == Pending then appts[k].(status := Confirmed) else appts[k])
  }

  /** How many appointments have the status: none exactly when no appointment has it. */
  function CountStatus(appts: seq<Appointment>, status: Status): (n: nat)
    ensures n <= |appts|
    ensures n == 0 <==> forall k :: 0 <= k < |appts| ==> appts[k].status != status
  {
    if |appts| == 0 then 0
    else (if appts[0].status == status then 1 else 0) + CountStatus(appts[1..], status)
  }

  /** After confirming all pending appointments none is pending, the confirmed ones are
      the old confirmed and pending ones together, and the cancelled ones are as before. */
  lemma {:induction false} ConfirmAllCounts(appts: seq<Appointment>)
    ensures CountStatus(ConfirmedPending(appts), Pending) == 0
    ensures CountStatus(ConfirmedPending(appts), Confirmed) == CountStatus(appts, Confirmed) + CountStatus(appts, Pending)
    ensures CountStatus(ConfirmedPending(appts), Cancelled) == CountStatus(appts, Cancelled)
  {
    if |appts| > 0 {
      ConfirmAllCounts(appts[1..]);
      assert ConfirmedPending(appts)[1..] == ConfirmedPending(appts[1..]);
    }
  }

  /** Setting a status twice is setting it once, and confirming what was confirmed
      already changes nothing. */
  lemma StatusIdempotent(appts: seq<Appointment>, id: string, status: Status)
    ensures WithStatus(WithStatus(appts, id, status), id, status) == WithStatus(appts, id, status)
    ensures ConfirmedPending(ConfirmedPending(appts)) == ConfirmedPending(appts)
  {
  }

  // ---------------------------------------------------------------------------
  // Filtering

  /** Whether an appointment passes the filters: a professional or service key other
      than "all" must name the appointment's professional or service (a key with no name
      names nothing), and with `showOnlyConfirmed` only confirmed ones pass. */
  predicate Keep(f: Filters, apt: Appointment) {
    (f.selectedProfessional == "all"
     || (f.selectedProfessional in ProfessionalNames && apt.professional == ProfessionalNames[f.selectedProfessional]))
    && (f.selectedService == "all"
        || (f.selectedService in ServiceNames && apt.service == ServiceNames[f.selectedService]))
    && (!f.showOnlyConfirmed || apt.status == Confirmed)
  }

  /** `filteredAppointments`: the appointments that pass, in their order. */
  function Filtered(appts: seq<Appointment>, f: Filters): (r: seq<Appointment>)
    ensures Seqs.SubsequenceOf(r, appts)
    ensures forall a :: a in r <==> a in appts && Keep(f, a)
    ensures f.showOnlyConfirmed ==> forall a :: a in r ==> a.status == Confirmed
    ensures f.selectedProfessional != "all" && f.selectedProfessional !in ProfessionalNames ==> r == []
    ensures f.selectedService != "all" && f.selectedService !in ServiceNames ==> r == []
  {
    Seqs.FilterIsSubsequence(appts, a => Keep(f, a));
    var r := Seqs.Filter(appts, a => Keep(f, a));
    assert |r| > 0 ==> r[0] in r;
    r
  }

  /** With the default filters every appointment is shown. */
  lemma DefaultFiltersShowAll(appts: seq<Appointment>)
    ensures Filtered(appts, DefaultFilters) == appts
  {
    Seqs.FilterAll(appts, a => Keep(DefaultFilters, a));
  }

  // ---------------------------------------------------------------------------
  // WhatsApp

  /** `handleWhatsAppAppointment`'s link: for the first appointment with the id, when it
      has a phone, "https://wa.me/55" followed by the phone's digits. */
  function WhatsAppLink(appts: seq<Appointment>, id: string): (r: Option<string>)
    ensures r.Some? <==> exists k :: 0 <= k < |appts| && appts[k].id == id && appts[k].clientPhone != ""
                                     && forall j :: 0 <= j < k ==> appts[j].id != id
    ensures r.Some? ==> Text.IsPrefix("https://wa.me/55", r.value) && Text.AllDigits(r.value[16..])
    ensures r.Some? ==> exists k :: 0 <= k < |appts| && appts[k].id == id && (forall j :: 0 <= j < k ==> appts[j].id != id)
                                   && PhoneDigits(r.value[16..], appts[k].clientPhone)
  {
    var apt := Seqs.Find(appts, (a: Appointment) => a.id == id);
    if apt.Some? && apt.value.clientPhone != "" then
      var digits := Seqs.Filter(apt.value.clientPhone, Text.IsDigit);
      var link := "https://wa.me/55" + digits;
      assert link[..16] == "https://wa.me/55" && link[16..] == digits;
      assert PhoneDigits(digits, apt.value.clientPhone) by { DigitsOfPhone(apt.value.clientPhone); }
      Some(link)
    else None
  }

  /** `digits` is the phone with everything but its digits dropped: in order, and each
      digit as often as in the phone. */
  predicate PhoneDigits(digits: string, phone: string) {
    && Seqs.SubsequenceOf(digits, phone)
    && Text.AllDigits(digits)
    && forall c :: Text.IsDigit(c) ==> Seqs.Count(digits, c) == Seqs.Count(phone, c)
  }

  lemma DigitsOfPhone(phone: string)
    ensures PhoneDigits(Seqs.Filter(phone, Text.IsDigit), phone)
  {
    Seqs.FilterIsSubsequence(phone, Text.IsDigit);
    forall c | Text.IsDigit(c)
      ensures Seqs.Count(Seqs.Filter(phone, Text.IsDigit), c) == Seqs.Count(phone, c)
    {
      Seqs.FilterCount(phone, Text.IsDigit, c);
    }
  }

  // ---------------------------------------------------------------------------
  // The page state

  class AgendaState {
    var selectedDate: int
    var filters: Filters
    var appointments: seq<Appointment>
    var selectedAppointment: Option<Appointment>
    var isDetailSheetOpen: bool

    /** The page as it opens on `today`. */
    constructor (today: int)
      ensures selectedDate == today && filters == DefaultFilters && appointments == MockAppointments
      ensures selectedAppointment == None && !isDetailSheetOpen
    {
      selectedDate := today;
      filters := DefaultFilters;
      appointments := MockAppointments;
      selectedAppointment := None;
      isDetailSheetOpen := false;
    }

    /** What the grid shows. */
    function Shown(): seq<Appointment>
      reads this
    {
      Filtered(appointments, filters)
    }

    method PreviousDay()
      modifies this
      ensures selectedDate == old(selectedDate) - 1
      ensures filters == old(filters) && appointments == old(appointments)
      ensures selectedAppointment == old(selectedAppointment) && isDetailSheetOpen == old(isDetailSheetOpen)
    {
      selectedDate := selectedDate - 1;
    }

    method NextDay()
      modifies this
      ensures selectedDate == old(selectedDate) + 1
      ensures filters == old(filters) && appointments == old(appointments)
      ensures selectedAppointment == old(selectedAppointment) && isDetailSheetOpen == old(isDetailSheetOpen)
    {
      selectedDate := selectedDate + 1;
    }

    method Today(today: int)
      modifies this
      ensures selectedDate == today
      ensures filters == old(filters) && appointments == old(appointments)
      ensures selectedAppointment == old(selectedAppointment) && isDetailSheetOpen == old(isDetailSheetOpen)
    {
      selectedDate := today;
    }

    method AppointmentClick(apt: Appointment)
      modifies this
      ensures selectedAppointment == Some(apt) && isDetailSheetOpen
      ensures selectedDate == old(selectedDate) && filters == old(filters) && appointments == old(appointments)
    {
      selectedAppointment := Some(apt);
      isDetailSheetOpen := true;
    }

    method CloseDetailSheet()
      modifies this
      ensures selectedAppointment == None && !isDetailSheetOpen
      ensures selectedDate == old(selectedDate) && filters == old(filters) && appointments == old(appointments)
    {
      isDetailSheetOpen := false;
      selectedAppointment := None;
    }

    method AppointmentDrop(id: string, newStartTime: string)
      requires IsDigitPair(newStartTime)
      requires forall a :: a in appointments && a.id == id ==> Movable(a)
      modifies this
      ensures appointments == Dropped(old(appointments), id, newStartTime)
      ensures selectedDate == old(selectedDate) && filters == old(filters)
      ensures selectedAppointment == old(selectedAppointment) && isDetailSheetOpen == old(isDetailSheetOpen)
    {
      appointments := Dropped(appointments, id, newStartTime);
    }

    method ProfessionalChange(value: string)
      modifies this
      ensures filters == old(filters).(selectedProfessional := value)
      ensures selectedDate == old(selectedDate) && appointments == old(appointments)
      ensures selectedAppointment == old(selectedAppointment) && isDetailSheetOpen == old(isDetailSheetOpen)
    {
      filters := filters.(selectedProfessional := value);
    }

    method ServiceChange(value: string)
      modifies this
      ensures filters == old(filters).(selectedService := value)
      ensures selectedDate == old(selectedDate) && appointments == old(appointments)
      ensures selectedAppointment == old(selectedAppointment) && isDetailSheetOpen == old(isDetailSheetOpen)
    {
      filters := filters.(selectedService := value);
    }

    method ShowOnlyConfirmedChange(value: bool)
      modifies this
      ensures filters == old(filters).(showOnlyConfirmed := value)
      ensures selectedDate == old(selectedDate) && appointments == old(appointments)
      ensures selectedAppointment == old(selectedAppointment) && isDetailSheetOpen == old(isDetailSheetOpen)
    {
      filters := filters.(showOnlyConfirmed := value);
    }

    /** `handleClearFilters`: back to the defaults, so every appointment is shown. */
    method ClearFilters()
      modifies this
      ensures filters == DefaultFilters && Shown() == appointments
      ensures selectedDate == old(selectedDate) && appointments == old(appointments)
      ensures selectedAppointment == old(selectedAppointment) && isDetailSheetOpen == old(isDetailSheetOpen)
    {
      filters := DefaultFilters;
      DefaultFiltersShowAll(appointments);
    }

    /** `handleConfirmAppointment`: the status changes and the sheet closes. */
    method ConfirmAppointment(id: string)
      modifies this
      ensures appointments == WithStatus(old(appointments), id, Confirmed)
      ensures selectedAppointment == None && !isDetailSheetOpen
      ensures selectedDate == old(selectedDate) && filters == old(filters)
    {
      appointments := WithStatus(appointments, id, Confirmed);
      CloseDetailSheet();
    }

    /** `handleCancelAppointment`: the status changes and the sheet closes. */
    method CancelAppointment(id: string)
      modifies this
      ensures appointments == WithStatus(old(appointments), id, Cancelled)
      ensures selectedAppointment == None && !isDetailSheetOpen
      ensures selectedDate == old(selectedDate) && filters == old(filters)
    {
      appointments := WithStatus(appointments, id, Cancelled);
      CloseDetailSheet();
    }

    method ConfirmAllPending()
      modifies this
      ensures appointments == ConfirmedPending(old(appointments))
      ensures selectedDate == old(selectedDate) && filters == old(filters)
      ensures selectedAppointment == old(selectedAppointment) && isDetailSheetOpen == old(isDetailSheetOpen)
    {
      appointments := ConfirmedPending(appointments);
    }

    /** `handleWhatsAppAppointment`: the link it opens, if any; nothing changes. */
    method WhatsAppAppointment(id: string) returns (link: Option<string>)
      ensures link == WhatsAppLink(appointments, id)
    {
      link := WhatsAppLink(appointments, id);
    }
  }
}
