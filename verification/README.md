# belezeiro — a verified model of the scheduling, booking and billing core

belezeiro is a booking system for beauty businesses (salons, barbershops, clinics): an
API that computes the free time of units and professionals, accepts bookings, bills
subscriptions and sends notifications, and a web frontend in which owners set up their
unit and clients book. This project models, in Dafny, the parts of both whose behaviour
can be stated and proved:

- the interval arithmetic of the API (overlap, merge, subtract) and the two slot
  generators, for a professional and for a unit, with their priority rule (a block
  exception, then an override, then rules for the date, then weekly rules);
- the booking entity's checks and status changes and the in-memory booking store;
- the unit opening rules and exceptions with their validators;
- the billing entities (subscription, discount, invoice) and the fake payment gateway;
- the notification fan-out over channels with user preferences and idempotency;
- the unit entity and the partial-update use case;
- the in-memory catalogue stores (amenities, services, specialties) with cursor
  pagination and search, the fuzzy-search helpers, the phone value object and the seed
  identifiers;
- on the frontend: the postal-code (CEP) helpers, the storage gateway with expiry and
  the onboarding progress store, the booking-flow reducer, the agenda grid and page
  state, the error classification of the HTTP client and of the error handler, the
  specialty/service and working-hours steps of the onboarding and new-unit forms, and
  the small formatters of the dashboard.

Instants are integer milliseconds since the Unix epoch (UTC) and calendar dates are day
numbers; the clock, identifier generators and network calls are parameters. Objects that
the source updates in place (entities, repositories, the payment gateway, the storage
gateway, the agenda page) are classes whose methods state their whole new state; pure
helpers are functions with lemmas relating them to an independent reference definition,
an inverse or an invariant. Loops of the source (interval merging and subtraction, slot
cutting, day scanning, the Levenshtein matrix, grouping of appointments, key sweeps of
the storage gateway, grouping of validation errors) are methods proved against those
functions.

## Model

| member | source | states |
|---|---|---|
| DateUtils.NormalizeTimestamp | apps/api/src/application/utils/date.utils.ts:19-23 | the result is a whole minute, at or before the instant and less than a minute before it |
| DateUtils.NormalizeTimestampIdempotent | apps/api/src/application/utils/date.utils.ts:19-23 | normalising twice is normalising once |
| DateUtils.ExtractTime | apps/api/src/application/utils/date.utils.ts:48-53 | a valid "HH:MM" whose fields are the UTC hour and minute of the instant |
| DateUtils.ParseDateTime | apps/api/src/application/utils/date.utils.ts:38-43 | a time of the form "DD:DD" gives an instant, and a valid clock time lands on the given day with that clock time; the model treats every other text as unparsable |
| DateUtils.ExtractParseRoundTrip | apps/api/src/application/utils/date.utils.ts:38-53 | extractTime(parseDateTime(d, t)) == t for every valid "HH:MM" t |
| DateUtils.ParseExtracted | apps/api/src/application/utils/date.utils.ts:38-53 | re-anchoring an instant's clock time onto a day gives that day at the same hour and minute |
| DateUtils.OverlapsSymmetric | apps/api/src/application/utils/date.utils.ts:74-81 | intervalsOverlap is symmetric |
| DateUtils.TouchingIntervalsDoNotOverlap | apps/api/src/application/utils/date.utils.ts:74-81 | intervals that only touch at an endpoint do not overlap, either way round |
| DateUtils.SortByStart | apps/api/src/application/utils/date.utils.ts:89-90 | the sort is a permutation of its input and is sorted by start |
| DateUtils.MergeIntervals | apps/api/src/application/utils/date.utils.ts:86-112 | the loop computes the merge of the sorted input; never longer than the input (empty for empty); sorted by start; covers exactly the instants the input covers; separated when every input interval is proper |
| DateUtils.MergeStepCoverage | apps/api/src/application/utils/date.utils.ts:98-108 | one merge step covers exactly what the merged prefix and the current interval cover |
| DateUtils.MergeSortedCoverage | apps/api/src/application/utils/date.utils.ts:94-109 | merging a sorted sequence keeps exactly the instants it covers |
| DateUtils.MergeIntervalsCoverage | apps/api/src/application/utils/date.utils.ts:86-112 | a point lies in some output interval iff it lies in some input interval |
| DateUtils.MergeStepSorted | apps/api/src/application/utils/date.utils.ts:98-108 | a merge step keeps the merged list sorted by start |
| DateUtils.MergeSortedIsSorted | apps/api/src/application/utils/date.utils.ts:90-109 | the merged output is sorted by start and starts no later than the last input |
| DateUtils.MergeStepSeparated | apps/api/src/application/utils/date.utils.ts:98-108 | a merge step of a proper interval keeps each merged interval starting at or after the previous one ends |
| DateUtils.MergeSortedDisjoint | apps/api/src/application/utils/date.utils.ts:90-109 | for proper inputs, each output interval starts at or after the previous one ends |
| DateUtils.MergeIntervalsDisjoint | apps/api/src/application/utils/date.utils.ts:86-112 | the same for mergeIntervals on unsorted proper input |
| DateUtils.MergeSortedBounded | apps/api/src/application/utils/date.utils.ts:94-109 | merging never reaches outside the bounds of its input |
| DateUtils.MergeIntervalsBounded | apps/api/src/application/utils/date.utils.ts:86-112 | sorting and merging keep the bounds of the input |
| DateUtils.SubtractIntervals | apps/api/src/application/utils/date.utils.ts:117-158 | the nested loops compute the fold of cuts; the result covers p iff base covers p and no subtracted interval does |
| DateUtils.CutCoverage | apps/api/src/application/utils/date.utils.ts:127-150 | cutting one interval by sub removes exactly the instants of sub |
| DateUtils.CutAllCoverage | apps/api/src/application/utils/date.utils.ts:126-152 | one pass of the inner loop removes exactly the instants of sub |
| DateUtils.SubtractAllCoverage | apps/api/src/application/utils/date.utils.ts:123-155 | the subtraction is the set difference on instants |
| DateUtils.SubtractNothingOverlapping | apps/api/src/application/utils/date.utils.ts:117-129 | with nothing overlapping, the remaining list is returned unchanged |
| DateUtils.CutAllUnchanged | apps/api/src/application/utils/date.utils.ts:126-129 | a pass by an interval that overlaps nothing changes nothing |
| DateUtils.CutAllWithin | apps/api/src/application/utils/date.utils.ts:131-150 | every piece of a pass lies inside the interval it came from and does not overlap sub |
| DateUtils.SubtractAllWithin | apps/api/src/application/utils/date.utils.ts:123-155 | every remaining interval lies inside one it started from and overlaps none of the subtracted intervals |
| DateUtils.SubtractIntervalsProperties | apps/api/src/application/utils/date.utils.ts:117-158 | every returned interval lies inside base and overlaps none of toSubtract; with nothing overlapping base the result is [base] |
| AvailabilityService.Weekday | apps/api/src/application/services/bookings/availability.service.ts:87 | the weekday of a day number lies in 0..6 (getWeekday) |
| AvailabilityService.WeekdayPeriodic | apps/api/src/application/services/bookings/availability.service.ts:87 | weekdays repeat every 7 days and advance by one each day |
| AvailabilityService.TimeOnDate | apps/api/src/application/services/bookings/availability.service.ts:69-70 | the instant lies within the day and keeps the source instant's clock time |
| AvailabilityService.TimeOnDateIsParse | apps/api/src/application/services/bookings/availability.service.ts:69-70 | parseDateTime(date, extractTime(t)) is that instant |
| AvailabilityService.CutSlots | apps/api/src/application/services/bookings/availability.service.ts:173-186 | back-to-back spans of exactly d ms from the start, inside [current, end), none when not even one fits |
| AvailabilityService.CutSlotsCount | apps/api/src/application/services/bookings/availability.service.ts:175-186 | the inner loop emits floor((end - current) / d) slots |
| AvailabilityService.CutSlotsSequential | apps/api/src/application/services/bookings/availability.service.ts:175-186 | each slot of an interval ends before any later one starts |
| AvailabilityService.SlotSpansWithin | apps/api/src/application/services/bookings/availability.service.ts:162-190 | every generated slot lasts d and lies inside one of the intervals |
| AvailabilityService.ToSlots | apps/api/src/application/services/bookings/availability.service.ts:176-183 | one slot per span |
| AvailabilityService.ToSlotsAppend | apps/api/src/application/services/bookings/availability.service.ts:180-183 | pushing slots in order: the slots of a concatenation are the concatenated slots |
| AvailabilityService.CutSlotsStep | apps/api/src/application/services/bookings/availability.service.ts:175-186 | one turn of the inner loop emits the slot at current and continues from its end |
| AvailabilityService.EmitSlot | apps/api/src/application/services/bookings/availability.service.ts:180-185 | the inner loop's invariant survives emitting a slot |
| AvailabilityService.SlotSpansSnoc | apps/api/src/application/services/bookings/availability.service.ts:168-187 | the outer loop's spans grow by the spans of the next interval |
| AvailabilityService.GenerateSlots | apps/api/src/application/services/bookings/availability.service.ts:162-190 | the loops return exactly the slots of the interval-by-interval cut |
| AvailabilityService.SingleIntervalSpans | apps/api/src/application/services/bookings/availability.service.ts:168-187 | a single interval's spans are its cut |
| AvailabilityService.IntervalSlots | apps/api/src/application/services/bookings/availability.service.ts:168-187 | one interval yields back-to-back slots from its start, none overlapping |
| AvailabilityService.IntervalSlotCount | apps/api/src/application/services/bookings/availability.service.ts:168-187 | one interval of length L yields floor(L / d) slots |
| AvailabilityService.SlotSpansCount | apps/api/src/application/services/bookings/availability.service.ts:168-187 | the slot count is the sum over intervals of floor(length / d) |
| AvailabilityService.SequentialConcat | apps/api/src/application/services/bookings/availability.service.ts:168-187 | slots of an earlier interval end before those of a later one start |
| AvailabilityService.SlotSpansSequential | apps/api/src/application/services/bookings/availability.service.ts:162-190 | over sorted, separated intervals (as merged ones are) no two slots overlap |
| AvailabilityService.EarlierEndBefore | apps/api/src/application/services/bookings/availability.service.ts:105 | in merged intervals every earlier one ends by the time the last starts |
| AvailabilityService.SpansEndBy | apps/api/src/application/services/bookings/availability.service.ts:168-187 | slots cut from intervals that end by a bound end by it too |
| AvailabilityService.ToSlotsAt | apps/api/src/application/services/bookings/availability.service.ts:176-178 | slot k is the zero-padded UTC "HH:MM" of its span's bounds |
| AvailabilityService.Spans | apps/api/src/application/services/bookings/availability.service.ts:144-147 | each booking becomes its [start_at, end_at) interval |
| AvailabilityService.SubtractOne | apps/api/src/application/services/bookings/availability.service.ts:151 | subtractIntervals(interval, [booking]) is one cut |
| AvailabilityService.SubtractBookingsFromIntervals | apps/api/src/application/services/bookings/availability.service.ts:137-157 | the loops compute the fold of cuts; the result covers p iff some interval covers p and no booking does |
| AvailabilityService.RulesToIntervals | apps/api/src/application/services/bookings/availability.service.ts:127-132 | one interval per rule, on the given day, with the rule's clock times |
| AvailabilityService.SelectPlan | apps/api/src/application/services/bookings/availability.service.ts:57-98 | every chosen interval lies on the day; a block exception chooses none |
| AvailabilityService.SlotLengthOkMeans | apps/api/src/application/services/bookings/availability.service.ts:62-95 | the guard holds iff the chosen plan has no interval or a positive slot length |
| AvailabilityService.GetAvailableSlots | apps/api/src/application/services/bookings/availability.service.ts:50-122 | the method returns the value of the priority rule, merge, subtraction of confirmed bookings and slot generation |
| AvailabilityService.BlockYieldsNothing | apps/api/src/application/services/bookings/availability.service.ts:52-59 | a block exception yields no slots, whatever the rules and bookings |
| AvailabilityService.ExceptionDecides | apps/api/src/application/services/bookings/availability.service.ts:65-75 | with an exception the rules are never consulted; an override missing a field yields nothing; a complete one yields exactly one interval with its slot length |
| AvailabilityService.RulePriority | apps/api/src/application/services/bookings/availability.service.ts:76-97 | weekly rules only without a rule for the date; slot length from the first chosen rule, 60 when none |
| AvailabilityService.UnconfirmedIgnored | apps/api/src/application/services/bookings/availability.service.ts:110-118 | adding an unconfirmed booking, or one of another user, changes no slot |
| AvailabilityService.OverlapIsBooked | apps/api/src/application/services/bookings/availability.service.ts:108-118 | a confirmed booking of the user that meets a span of the day is among those subtracted |
| AvailabilityService.FreeSpanSound | apps/api/src/application/services/bookings/availability.service.ts:105-121 | a slot cut from what the bookings leave lasts d, stays in bounds, lies in the opening hours and meets no booking |
| AvailabilityService.AvailableSpansSound | apps/api/src/application/services/bookings/availability.service.ts:50-122 | every free slot has the slot length, lies within the day and the chosen opening hours, and overlaps no confirmed booking of the user |
| AvailabilityService.DaysWhereSpec | apps/api/src/application/services/bookings/availability.service.ts:34-41 | the filter keeps exactly the window's days that qualify, in increasing order |
| AvailabilityService.DaysWhereStep | apps/api/src/application/services/bookings/availability.service.ts:34-41 | one more day joins exactly when it qualifies |
| AvailabilityService.OpenDayStep | apps/api/src/application/services/bookings/availability.service.ts:35-40 | a day joins the result exactly when its slot list is non-empty |
| AvailabilityService.OpenDaysSpec | apps/api/src/application/services/bookings/availability.service.ts:30-44 | the open days are exactly the window's dates with a free slot, in increasing order |
| AvailabilityService.GetAvailableDays | apps/api/src/application/services/bookings/availability.service.ts:30-44 | returns, in increasing order, exactly the next days_ahead dates whose slot list is non-empty |
| AvailabilityService.ScanDays | apps/api/src/application/services/bookings/availability.service.ts:34-41 | the loop builds the filtered window |
| AvailabilityService.ScanDay | apps/api/src/application/services/bookings/availability.service.ts:35-40 | one iteration adds the day exactly when it has a slot |
| TimeGrid.TimeToMinutes | apps/frontend/src/components/agenda/TimeGrid.tsx:39-42 | an "HH:MM" time reads as hours times sixty plus minutes, at most 99:99 |
| TimeGrid.MinutesToTime | apps/frontend/src/components/agenda/TimeGrid.tsx:44-48 | for 0 <= m < 6000 the label is the padded hours and minutes and reads back as m |
| TimeGrid.TimeRoundTrip | apps/frontend/src/components/agenda/TimeGrid.tsx:39-48 | minutesToTime(timeToMinutes(t)) == t for every "HH:MM" with minutes below 60 |
| TimeGrid.ClockTimeRoundTrip | apps/frontend/src/components/agenda/TimeGrid.tsx:39-48 | a clock time survives the round trip and lies before 24:00 |
| TimeGrid.SlotLabelIsMinutes | apps/frontend/src/components/agenda/TimeGrid.tsx:30-34 | the k-th grid label is the clock time 30k minutes after 06:00 |
| TimeGrid.HourSlots | apps/frontend/src/components/agenda/TimeGrid.tsx:31-34 | one pass of the loop appends the hour's ":00" label and, before the last hour, its ":30" label |
| TimeGrid.GridEnds | apps/frontend/src/components/agenda/TimeGrid.tsx:28-37 | the grid starts at 06:00, ends at 22:00 and holds no 22:30 |
| TimeGrid.GenerateTimeSlots | apps/frontend/src/components/agenda/TimeGrid.tsx:28-37 | the loop returns the 33 half-hour labels from 06:00 to 22:00, each 30 minutes after the previous |
| TimeGrid.ChainedStartsBefore | apps/frontend/src/components/agenda/TimeGrid.tsx:77-79 | in a group each appointment after the first starts before the latest end of those before it |
| TimeGrid.StartsBeforeChained | apps/frontend/src/components/agenda/TimeGrid.tsx:77-79 | conversely, that condition makes a group |
| TimeGrid.SeparatedStartsAfter | apps/frontend/src/components/agenda/TimeGrid.tsx:80-84 | each new group starts no earlier than the latest end of the group before it |
| TimeGrid.AllChainedMeans | apps/frontend/src/components/agenda/TimeGrid.tsx:69-91 | every group is non-empty and chained |
| TimeGrid.PushGroup | apps/frontend/src/components/agenda/TimeGrid.tsx:81-89 | closing a group keeps the groups chained and separated and the flattening in order |
| TimeGrid.ExtendGroup | apps/frontend/src/components/agenda/TimeGrid.tsx:77-79 | joining the open group keeps it chained and the running end is the maximum |
| TimeGrid.ExtendRun | apps/frontend/src/components/agenda/TimeGrid.tsx:77-79 | the loop's invariant survives an appointment that starts before the group's end |
| TimeGrid.CloseRun | apps/frontend/src/components/agenda/TimeGrid.tsx:80-84 | the loop's invariant survives an appointment that starts at or after the group's end |
| TimeGrid.FinishRuns | apps/frontend/src/components/agenda/TimeGrid.tsx:87-91 | pushing the last open group completes the grouping |
| TimeGrid.GroupRuns | apps/frontend/src/components/agenda/TimeGrid.tsx:69-91 | the forEach cuts the sorted list into chained, separated groups whose concatenation is the list |
| TimeGrid.GroupOverlapping | apps/frontend/src/components/agenda/TimeGrid.tsx:64-92 | the groups concatenate to the appointments in start order; each is chained and the groups are separated |
| TimeGrid.GroupsAreSortedInput | apps/frontend/src/components/agenda/TimeGrid.tsx:65-67 | the sorted copy is a permutation of the appointments, ordered by start minutes |
| TimeGrid.BlocksAreHalfOpen | apps/frontend/src/components/agenda/TimeGrid.tsx:94-101 | a block covers its own start and not its end |
| TimeGrid.CalculateTargetTime | apps/frontend/src/components/agenda/TimeGrid.tsx:111-119 | the start moved by round(y / 48) slots of 30 minutes, clamped to [06:00, 21:30], as "HH:MM" |
| TimeGrid.FindById | apps/frontend/src/components/agenda/TimeGrid.tsx:139-189 | find: none iff no appointment has the id; otherwise the first appointment with it |
| TimeGrid.DropFor | apps/frontend/src/components/agenda/TimeGrid.tsx:180-192 | a drop is reported iff id and target are set, the target is neither blocked nor outside the shift, the appointment exists and it does not start there |
| TimeGrid.DragState.constructor | apps/frontend/src/components/agenda/TimeGrid.tsx:134-136 | nothing is being dragged |
| TimeGrid.DragState.DragStart | apps/frontend/src/components/agenda/TimeGrid.tsx:152-158 | the dragged id is set and the target becomes its start when it exists |
| TimeGrid.DragState.DragMove | apps/frontend/src/components/agenda/TimeGrid.tsx:160-170 | with an appointment and a delta the target follows the pointer and the invalid flag is blocked-or-outside; otherwise nothing changes |
| TimeGrid.DragState.DragEnd | apps/frontend/src/components/agenda/TimeGrid.tsx:172-193 | the drag is cleared and the drop reported is DropFor of the old state |
| TimeGrid.DropFromMoveIsInGrid | apps/frontend/src/components/agenda/TimeGrid.tsx:111-119 | a drop from a move lands between 06:00 and 21:30 and inside the work shift |
| TimeGrid.SlotLabelShape | apps/frontend/src/components/agenda/TimeGrid.tsx:30-34 | the k-th label is two digits reading 6 + k / 2, a colon, and "00" or "30" as k is even or odd |
| Agenda.CalculateNewEndTime | apps/frontend/src/features/agenda/hooks/useAgenda.ts:147-158 | the new end is the new start plus the appointment's length, as "HH:MM", while it stays below hour 100 |
| Agenda.DropInPlaceKeepsEnd | apps/frontend/src/features/agenda/hooks/useAgenda.ts:147-158 | dropping an appointment at its own start gives back its own end |
| Agenda.MovedTo | apps/frontend/src/features/agenda/hooks/useAgenda.ts:164 | the moved appointment keeps its id and status and starts at the new time |
| Agenda.Dropped | apps/frontend/src/features/agenda/hooks/useAgenda.ts:161-167 | appointments with the id move, all others stay as they were, and the count is unchanged |
| Agenda.DropKeepsDuration | apps/frontend/src/features/agenda/hooks/useAgenda.ts:160-167 | a moved appointment keeps its length and starts at the new time |
| Agenda.WithStatus | apps/frontend/src/features/agenda/hooks/useAgenda.ts:197-215 | appointments with the id get the status; every other field and every other appointment is unchanged |
| Agenda.ConfirmedPending | apps/frontend/src/features/agenda/hooks/useAgenda.ts:238-240 | every pending appointment becomes confirmed, nothing else changes, and none is left pending |
| Agenda.ConfirmAllCounts | apps/frontend/src/features/agenda/hooks/useAgenda.ts:237-242 | afterwards no appointment is pending; confirmed = old confirmed + old pending; cancelled unchanged |
| Agenda.StatusIdempotent | apps/frontend/src/features/agenda/hooks/useAgenda.ts:196-242 | setting a status twice, or confirming all pending twice, is the same as doing it once |
| Agenda.Filtered | apps/frontend/src/features/agenda/hooks/useAgenda.ts:257-282 | the shown appointments are, in order, exactly those passing the professional, service and confirmed filters; an unknown key shows none |
| Agenda.DefaultFiltersShowAll | apps/frontend/src/features/agenda/hooks/useAgenda.ts:111-115 | the default filters show every appointment |
| Agenda.WhatsAppLink | apps/frontend/src/features/agenda/hooks/useAgenda.ts:220-226 | a link exists iff the first appointment with the id has a phone; it is "https://wa.me/55" followed by exactly that phone's digits, in order and each as often |
| Agenda.AgendaState.constructor | apps/frontend/src/features/agenda/hooks/useAgenda.ts:110-120 | the page opens on today with default filters, the mock appointments and the sheet closed |
| Agenda.AgendaState.PreviousDay | apps/frontend/src/features/agenda/hooks/useAgenda.ts:123-125 | the day moves back one; nothing else changes |
| Agenda.AgendaState.NextDay | apps/frontend/src/features/agenda/hooks/useAgenda.ts:127-129 | the day moves forward one; nothing else changes |
| Agenda.AgendaState.Today | apps/frontend/src/features/agenda/hooks/useAgenda.ts:131-133 | the day becomes today; nothing else changes |
| Agenda.AgendaState.AppointmentClick | apps/frontend/src/features/agenda/hooks/useAgenda.ts:136-139 | the appointment is selected and the sheet opens |
| Agenda.AgendaState.CloseDetailSheet | apps/frontend/src/features/agenda/hooks/useAgenda.ts:141-144 | the sheet closes and the selection is cleared |
| Agenda.AgendaState.AppointmentDrop | apps/frontend/src/features/agenda/hooks/useAgenda.ts:160-172 | the appointments become Dropped of the old ones; nothing else changes |
| Agenda.AgendaState.ProfessionalChange | apps/frontend/src/features/agenda/hooks/useAgenda.ts:175-177 | only the professional filter changes |
| Agenda.AgendaState.ServiceChange | apps/frontend/src/features/agenda/hooks/useAgenda.ts:179-181 | only the service filter changes |
| Agenda.AgendaState.ShowOnlyConfirmedChange | apps/frontend/src/features/agenda/hooks/useAgenda.ts:183-185 | only the confirmed-only filter changes |
| Agenda.AgendaState.ClearFilters | apps/frontend/src/features/agenda/hooks/useAgenda.ts:187-193 | the filters are the defaults and every appointment is shown |
| Agenda.AgendaState.ConfirmAppointment | apps/frontend/src/features/agenda/hooks/useAgenda.ts:196-202 | the appointment is confirmed and the sheet closes |
| Agenda.AgendaState.CancelAppointment | apps/frontend/src/features/agenda/hooks/useAgenda.ts:212-218 | the appointment is cancelled and the sheet closes |
| Agenda.AgendaState.ConfirmAllPending | apps/frontend/src/features/agenda/hooks/useAgenda.ts:237-242 | every pending appointment is confirmed; nothing else changes |
| Agenda.AgendaState.WhatsAppAppointment | apps/frontend/src/features/agenda/hooks/useAgenda.ts:220-226 | returns the link WhatsAppLink describes and changes nothing |
| Agenda.CountStatus | apps/frontend/src/features/agenda/hooks/useAgenda.ts:237-242 | the count of a status is at most the number of appointments, and zero exactly when no appointment has it |
| Agenda.DigitsOfPhone | apps/frontend/src/features/agenda/hooks/useAgenda.ts:220-226 | the digits kept from a phone are its digits in order, each as often as in the phone |
| OnboardingSpecialties.FilteredByName | apps/frontend/src/components/onboarding/OnboardingStepSpecialties.tsx:29-34 | a blank search keeps every item; otherwise exactly the items whose lower-cased name contains the lower-cased search, in order (also filteredServices, 72-77) |
| OnboardingSpecialties.AddCustomSpecialtyAsWritten | apps/frontend/src/components/onboarding/OnboardingStepSpecialties.tsx:120-131 | the list is unchanged or gains one custom specialty named by the trimmed search |
| OnboardingSpecialties.TrailingSpaceDuplicatesSpecialty | apps/frontend/src/components/onboarding/OnboardingStepSpecialties.tsx:37-42 | a specialty's name plus a trailing space passes the existence test and creates a second specialty with that very name |
| OnboardingSpecialties.AddCustomSpecialty | apps/frontend/src/components/onboarding/OnboardingStepSpecialties.tsx:120-131 | a specialty "custom-<now>" named by the trimmed search is appended iff the search is not blank and no specialty has that name, ignoring case |
| OnboardingSpecialties.ToggleProfession | apps/frontend/src/components/onboarding/OnboardingStepSpecialties.tsx:87-100 | a selected specialty is removed with every service under it; an unselected one is appended and nothing else changes |
| OnboardingSpecialties.ToggleService | apps/frontend/src/components/onboarding/OnboardingStepSpecialties.tsx:102-118 | a chosen service is filtered out (all copies), others kept in order; an unchosen one is appended |
| OnboardingSpecialties.ToggleServiceTwice | apps/frontend/src/components/onboarding/OnboardingStepSpecialties.tsx:102-118 | choosing and then unchoosing a service restores the list |
| OnboardingSpecialties.ChosenNames | apps/frontend/src/components/onboarding/OnboardingStepSpecialties.tsx:58-59 | the names of the chosen services under a specialty |
| OnboardingSpecialties.PutOne | apps/frontend/src/components/onboarding/OnboardingStepSpecialties.tsx:51-54 | a name is added under the specialty only when its key is new; the keys stay distinct |
| OnboardingSpecialties.PutAll | apps/frontend/src/components/onboarding/OnboardingStepSpecialties.tsx:50-55 | the inner forEach adds every missing key of the names, keeping earlier entries and distinct keys |
| OnboardingSpecialties.Step | apps/frontend/src/components/onboarding/OnboardingStepSpecialties.tsx:48-66 | one pass adds the catalogue names, then the chosen names, of one specialty |
| OnboardingSpecialties.NewEntriesFromSelected | apps/frontend/src/components/onboarding/OnboardingStepSpecialties.tsx:48-66 | every entry added in a pass comes from that specialty's catalogue or chosen services |
| OnboardingSpecialties.StepCovers | apps/frontend/src/components/onboarding/OnboardingStepSpecialties.tsx:48-66 | after a pass every catalogue and chosen service of that specialty has its key in the map |
| OnboardingSpecialties.AvailableServices | apps/frontend/src/components/onboarding/OnboardingStepSpecialties.tsx:45-69 | the offered services have distinct (name, specialty) keys, each from a selected specialty, and cover every catalogue and chosen service of each selected specialty; they come grouped by selected specialty in selection order, catalogue entries before chosen ones |
| OnboardingSpecialties.AddCustomServiceAsWritten | apps/frontend/src/components/onboarding/OnboardingStepSpecialties.tsx:133-145 | the list is unchanged or gains the trimmed search under the first selected specialty |
| OnboardingSpecialties.TrailingSpaceDuplicatesService | apps/frontend/src/components/onboarding/OnboardingStepSpecialties.tsx:80-85 | an offered name plus a trailing space passes the existence test and creates a service with that very name |
| OnboardingSpecialties.AddCustomService | apps/frontend/src/components/onboarding/OnboardingStepSpecialties.tsx:133-145 | the trimmed search is appended under the first specialty iff it is not blank, a specialty is selected and no offered service has that name, ignoring case |
| OnboardingSpecialties.SelectAllServices | apps/frontend/src/components/onboarding/OnboardingStepSpecialties.tsx:153-159 | the choices are exactly the offered (name, specialty) pairs, in order |
| OnboardingSpecialties.SelectAllChoosesOffered | apps/frontend/src/components/onboarding/OnboardingStepSpecialties.tsx:153-159 | a pair is chosen afterwards iff it is offered |
| OnboardingSpecialties.DeselectAllServices | apps/frontend/src/components/onboarding/OnboardingStepSpecialties.tsx:161-163 | no service is chosen |
| NewUnitSpecialties.AllProfessions | apps/frontend/src/components/new-unit/StepSpecialties.tsx:45-48 | the catalogue's specialties come first, then exactly the selected ones whose id the catalogue lacks; every selected id is listed |
| NewUnitSpecialties.Entries | apps/frontend/src/components/new-unit/StepSpecialties.tsx:61-64 | one choice per catalogue service, under the given specialty |
| NewUnitSpecialties.ToggleProfession | apps/frontend/src/components/new-unit/StepSpecialties.tsx:50-69 | a selected specialty is removed with every service under it; an unselected one is appended with all its catalogue services |
| NewUnitSpecialties.ToggleProfessionTwice | apps/frontend/src/components/new-unit/StepSpecialties.tsx:50-69 | adding a specialty nothing refers to and removing it again restores the choices |
| NewUnitSpecialties.ToggleService | apps/frontend/src/components/new-unit/StepSpecialties.tsx:71-83 | the first matching choice is spliced out, or the choice is appended |
| NewUnitSpecialties.ToggleServiceRemovesOne | apps/frontend/src/components/new-unit/StepSpecialties.tsx:76-79 | unchoosing removes exactly one occurrence and nothing else |
| NewUnitSpecialties.ToggleServiceTwice | apps/frontend/src/components/new-unit/StepSpecialties.tsx:71-83 | choosing an unchosen service and unchoosing it restores the list |
| NewUnitSpecialties.AddCustomService | apps/frontend/src/components/new-unit/StepSpecialties.tsx:85-99 | the trimmed name is appended iff it is not blank, a specialty is chosen and that pair is absent; a list without duplicates keeps none |
| NewUnitSpecialties.AddCustomSpecialty | apps/frontend/src/components/new-unit/StepSpecialties.tsx:101-115 | the list changes iff the name is not blank, and then gains "custom-<now>" with the trimmed name |
| NewUnitSpecialties.ServicesForProfession | apps/frontend/src/components/new-unit/StepSpecialties.tsx:117-123 | no name twice; the catalogue names come first; a name is listed iff the catalogue has it or it is chosen under the specialty |
| NewUnitSpecialties.IsServiceSelected | apps/frontend/src/components/new-unit/StepSpecialties.tsx:125-127 | selected iff some chosen service has that name under that specialty |
| NewUnitSpecialties.IsValid | apps/frontend/src/components/new-unit/StepSpecialties.tsx:129 | valid iff at least one specialty and one service are chosen |
| OnboardingWorkingHours.TimeOptions | apps/frontend/src/components/onboarding/OnboardingStepWorkingHours.tsx:32-36 | 48 options, the i-th being TimeOption(i) |
| OnboardingWorkingHours.TimeOptionIsHalfHour | apps/frontend/src/components/onboarding/OnboardingStepWorkingHours.tsx:32-36 | option i is the clock time 30 * i minutes after midnight, so the options run from 00:00 to 23:30 |
| OnboardingWorkingHours.RuleFor | apps/frontend/src/components/onboarding/OnboardingStepWorkingHours.tsx:42-46 | none iff no weekly rule of that weekday exists; otherwise one such rule from the list |
| OnboardingWorkingHours.RuleForIs | apps/frontend/src/components/onboarding/OnboardingStepWorkingHours.tsx:42-46 | the rule found is the first weekly rule of the weekday |
| OnboardingWorkingHours.Set | apps/frontend/src/components/onboarding/OnboardingStepWorkingHours.tsx:52 | setting a field keeps the rule's type and weekday |
| OnboardingWorkingHours.UpdateRule | apps/frontend/src/components/onboarding/OnboardingStepWorkingHours.tsx:49-57 | the field changes on every weekly rule of the weekday; every other rule is unchanged; the length is kept |
| OnboardingWorkingHours.UpdatedRuleFor | apps/frontend/src/components/onboarding/OnboardingStepWorkingHours.tsx:49-57 | afterwards the weekday's rule is its old rule with the field set |
| OnboardingWorkingHours.UpdateKeepsOtherDays | apps/frontend/src/components/onboarding/OnboardingStepWorkingHours.tsx:49-57 | every other weekday's rule is unchanged |
| OnboardingWorkingHours.ToggleDay | apps/frontend/src/components/onboarding/OnboardingStepWorkingHours.tsx:60-85 | enabling a day without a rule appends the 09:00-18:00, 30-minute active rule; otherwise the day's rule is marked active or inactive |
| OnboardingWorkingHours.ToggleDayEffect | apps/frontend/src/components/onboarding/OnboardingStepWorkingHours.tsx:60-85 | no rule is lost; the day has a rule iff it was enabled or had one, and that rule's active flag is the new setting |
| OnboardingWorkingHours.CopyHoursToAll | apps/frontend/src/components/onboarding/OnboardingStepWorkingHours.tsx:87-119 | no change without a source rule; otherwise one weekly rule per day in display order, the source's own unchanged and every other with the source's times and slot length |
| OnboardingWorkingHours.CopiedRuleFor | apps/frontend/src/components/onboarding/OnboardingStepWorkingHours.tsx:87-119 | after a copy each weekday's rule is the one at its place in the day list |
| NewUnitWorkingHours.FlattenPrefix | apps/frontend/src/components/new-unit/StepWorkingHours.tsx:39-42 | flattening n hour pairs that match a list's consecutive pairs gives that list's first 2n entries |
| NewUnitWorkingHours.HoursAreTimeOptions | apps/frontend/src/components/new-unit/StepWorkingHours.tsx:39-42 | the 48 hour labels of this step equal the onboarding step's time options, 00:00 to 23:30 |
| NewUnitWorkingHours.HourPairIsTimeOptions | apps/frontend/src/components/new-unit/StepWorkingHours.tsx:40-41 | hour h's pair is time options 2h and 2h + 1 |
| NewUnitWorkingHours.UpdateDayHours | apps/frontend/src/components/new-unit/StepWorkingHours.tsx:53-66 | only the named field of the named day changes; the days are the same and every other day is unchanged |
| NewUnitWorkingHours.ToggleLunchBreak | apps/frontend/src/components/new-unit/StepWorkingHours.tsx:83-87 | only the lunch break's enabled flag changes |
| NewUnitWorkingHours.UpdateLunchBreak | apps/frontend/src/components/new-unit/StepWorkingHours.tsx:89-93 | only the named lunch field changes |
| NewUnitWorkingHours.CopiedHoursSpec | apps/frontend/src/components/new-unit/StepWorkingHours.tsx:72-76 | after the copy every selected day holds the source's hours, every other day is unchanged, and no day is lost |
| NewUnitWorkingHours.WorkingHoursStep.constructor | apps/frontend/src/components/new-unit/StepWorkingHours.tsx:50-51 | no source day and no selection |
| NewUnitWorkingHours.WorkingHoursStep.CopyHoursToSelectedDays | apps/frontend/src/components/new-unit/StepWorkingHours.tsx:68-81 | with no source day (null or "") or no selection nothing changes; otherwise the selected days get the source's hours and the source and selection are cleared |
| UserMenu.FirstSep | apps/frontend/src/features/dashboard/ui/UserMenu.tsx:19 | -1 iff the text has no separator; otherwise the position of the first one |
| UserMenu.SepRunEnd | apps/frontend/src/features/dashboard/ui/UserMenu.tsx:19 | the end of a run of separators: everything from i up to it is a separator and the next character is not |
| UserMenu.EndsWithWordAfterSep | apps/frontend/src/features/dashboard/ui/UserMenu.tsx:19 | a word found after the last separator run ends the text |
| UserMenu.Split | apps/frontend/src/features/dashboard/ui/UserMenu.tsx:19 | split(/\s+/) gives at least one part, and exactly one (the text itself) iff the text has no separator |
| UserMenu.SplitPiecesHaveNoSep | apps/frontend/src/features/dashboard/ui/UserMenu.tsx:19 | no part contains a separator |
| UserMenu.SplitFirst | apps/frontend/src/features/dashboard/ui/UserMenu.tsx:19-23 | the first part is the text's leading word |
| UserMenu.SplitEnds | apps/frontend/src/features/dashboard/ui/UserMenu.tsx:19-23 | the last part is the text's trailing word |
| UserMenu.GetInitials | apps/frontend/src/features/dashboard/ui/UserMenu.tsx:17-24 | an empty name gives "?"; any other name gives min(2, length of the trimmed name) characters |
| UserMenu.InitialsOfName | apps/frontend/src/features/dashboard/ui/UserMenu.tsx:20-23 | the first initial is the upper-cased first letter of the trimmed name; for a one-word name the second is its upper-cased second letter |
| UserMenu.InitialsOfWords | apps/frontend/src/features/dashboard/ui/UserMenu.tsx:23 | for several words the second initial is the upper-cased first letter of the last word |
| UserMenu.BlankNameHasNoInitials | apps/frontend/src/features/dashboard/ui/UserMenu.tsx:18-21 | as written, a non-empty all-space name gives "" instead of "?" |
| UserMenu.Initials | apps/frontend/src/features/dashboard/ui/UserMenu.tsx:17-24 | corrected: one or two characters always; "?" for a blank name, otherwise the initials above |
| NotificationBell.Classify | apps/frontend/src/features/dashboard/ui/NotificationBell.tsx:29-38 | each bucket holds exactly its range of elapsed time: under a minute, minutes 1-59, hours 1-23, one day, two days or more, with the counts floored |
| NotificationBell.ClassifyMonotone | apps/frontend/src/features/dashboard/ui/NotificationBell.tsx:34-38 | more elapsed time never gives a more recent bucket |
| NotificationBell.FormatTime | apps/frontend/src/features/dashboard/ui/NotificationBell.tsx:26-39 | "Agora" iff under a minute; "Ontem" iff between one and two days; "Ha 1 hora" in the second hour |
| NotificationBell.TypeColor | apps/frontend/src/features/dashboard/ui/NotificationBell.tsx:41-55 | "bg-primary" iff the type is none of appointment, payment, message and reminder |
| NotificationBell.Label | apps/frontend/src/features/dashboard/ui/NotificationBell.tsx:34-38 | "Agora" names exactly the first bucket and "Ontem" exactly yesterday; every other label starts "Ha " |
| AppointmentDetailSheet.CalculateDuration | apps/frontend/src/features/agenda/ui/AppointmentDetailSheet.tsx:35-44 | under an hour "Mmin", whole hours "Hh", otherwise "Hh Mmin", from the minutes between the two times; for an end not before the start the label reads back as those minutes |
| AppointmentDetailSheet.DurationRoundTrip | apps/frontend/src/features/agenda/ui/AppointmentDetailSheet.tsx:39-43 | every non-negative duration's label ("Nmin", "Nh" or "Nh Mmin") reads back as that duration |
| AppointmentDetailSheet.MinutesRoundTrip | apps/frontend/src/features/agenda/ui/AppointmentDetailSheet.tsx:41 | durations under an hour read back from "Nmin" |
| AppointmentDetailSheet.HoursRoundTrip | apps/frontend/src/features/agenda/ui/AppointmentDetailSheet.tsx:42 | whole hours read back from "Nh" |
| AppointmentDetailSheet.HoursMinutesRoundTrip | apps/frontend/src/features/agenda/ui/AppointmentDetailSheet.tsx:43 | other durations read back from "Nh Mmin" |
| AppointmentDetailSheet.NegativeDurationLabel | apps/frontend/src/features/agenda/ui/AppointmentDetailSheet.tsx:38-43 | an end 30 minutes before the start is labelled "-1h -30min" |
| AppointmentDetailSheet.StatusConfig | apps/frontend/src/features/agenda/ui/AppointmentDetailSheet.tsx:20-33 | each status has its own title: "Confirmado", "Aguardando", "Cancelado" each name exactly one status |
| StorageGateway.FullKey | apps/frontend/src/shared/lib/persistence/storage-gateway.ts:44-46 | the full key is the prefix followed by the key |
| StorageGateway.RawItemIn | apps/frontend/src/shared/lib/persistence/storage-gateway.ts:100-115 | an item iff a readable entry is stored under the full key, and then that entry's item |
| StorageGateway.LiveIn | apps/frontend/src/shared/lib/persistence/storage-gateway.ts:120-134 | data iff a readable item exists and now is not past its expiry, and then the item's data |
| StorageGateway.Cleared | apps/frontend/src/shared/lib/persistence/storage-gateway.ts:128-131 | removing an expired item on a read changes no read at that instant and leaves no expired item under the key |
| StorageGateway.SaveThenRead | apps/frontend/src/shared/lib/persistence/storage-gateway.ts:58-81 | a saved item reads back until now + ttl and not after; it is stamped now and keeps the old creation instant; no other key changes |
| StorageGateway.SweepIsInvisible | apps/frontend/src/shared/lib/persistence/storage-gateway.ts:211-244 | the sweep leaves other namespaces alone, keeps empty-text and expiry-less entries, removes unparsable and null ones of the namespace, and changes no read at the same instant |
| StorageGateway.ClearAllEmptiesNamespace | apps/frontend/src/shared/lib/persistence/storage-gateway.ts:185-206 | after clearing no key of the namespace reads back and every other key is as it was |
| StorageGateway.StorageGateway.constructor | apps/frontend/src/shared/lib/persistence/storage-gateway.ts:35-39 | absent options take the defaults: 24 hours and "belezeiro_" |
| StorageGateway.StorageGateway.Save | apps/frontend/src/shared/lib/persistence/storage-gateway.ts:58-81 | the storage becomes Saved of the old storage |
| StorageGateway.StorageGateway.Remove | apps/frontend/src/shared/lib/persistence/storage-gateway.ts:168-180 | exactly the full key is removed |
| StorageGateway.StorageGateway.Get | apps/frontend/src/shared/lib/persistence/storage-gateway.ts:120-134 | returns the live data and drops an expired item |
| StorageGateway.StorageGateway.GetWithMetadata | apps/frontend/src/shared/lib/persistence/storage-gateway.ts:139-156 | as get, with the expiry and the time left |
| StorageGateway.StorageGateway.Exists | apps/frontend/src/shared/lib/persistence/storage-gateway.ts:161-163 | true iff get finds data |
| StorageGateway.StorageGateway.Update | apps/frontend/src/shared/lib/persistence/storage-gateway.ts:86-95 | saves the spread of the live data and the partial data, or the partial data alone when nothing is live |
| StorageGateway.StorageGateway.RefreshTtl | apps/frontend/src/shared/lib/persistence/storage-gateway.ts:249-255 | false iff nothing is live, and then only an expired item under the key is removed; otherwise the live data is saved again with a fresh expiry and the same creation instant |
| StorageGateway.StorageGateway.GetRemainingTime | apps/frontend/src/shared/lib/persistence/storage-gateway.ts:260-266 | none iff nothing is live; otherwise the non-negative time to expiry |
| StorageGateway.StorageGateway.ClearAll | apps/frontend/src/shared/lib/persistence/storage-gateway.ts:185-206 | the two loops remove exactly the keys of the namespace |
| StorageGateway.StorageGateway.CleanupExpired | apps/frontend/src/shared/lib/persistence/storage-gateway.ts:211-244 | the loops remove exactly the namespace's expired, unparsable and null entries and return how many; empty-text and expiry-less entries stay |
| StorageGateway.IsExpired | apps/frontend/src/shared/lib/persistence/storage-gateway.ts:51-53 | an item is expired iff now is strictly past its expiry |
| OnboardingPersistence.UserKey | apps/frontend/src/shared/lib/persistence/onboarding-persistence.ts:89-91 | the key is "user_" followed by the user id |
| OnboardingPersistence.UserKeyInjective | apps/frontend/src/shared/lib/persistence/onboarding-persistence.ts:89-91 | different users never share a key |
| OnboardingPersistence.Merge | apps/frontend/src/shared/lib/persistence/onboarding-persistence.ts:100-108 | step from the patch, else the stored one, else 1; the stored or default form overlaid with the patch's fields; the original start instant; updated now |
| OnboardingPersistence.SaveStepChangesOnlyStep | apps/frontend/src/shared/lib/persistence/onboarding-persistence.ts:116-118 | saving a step changes only the step and the update instant |
| OnboardingPersistence.SaveFormDataOverlays | apps/frontend/src/shared/lib/persistence/onboarding-persistence.ts:123-131 | saving form fields gives the stored (or default) form overlaid with them |
| OnboardingPersistence.FormatRemainingTime | apps/frontend/src/shared/lib/persistence/onboarding-persistence.ts:229-237 | at least an hour shows "Hh Mmin" with M below 60 from the clock split; less shows "Mmin" |
| OnboardingPersistence.OnboardingPersistenceService.constructor | apps/frontend/src/shared/lib/persistence/onboarding-persistence.ts:76-84 | a gateway with the 24-hour lifetime and the onboarding prefix, swept of stale entries |
| OnboardingPersistence.OnboardingPersistenceService.Get | apps/frontend/src/shared/lib/persistence/onboarding-persistence.ts:136-138 | the user's live record; an expired one is dropped |
| OnboardingPersistence.OnboardingPersistenceService.Save | apps/frontend/src/shared/lib/persistence/onboarding-persistence.ts:96-111 | writes the merge of the patch into the live record |
| OnboardingPersistence.OnboardingPersistenceService.SaveStep | apps/frontend/src/shared/lib/persistence/onboarding-persistence.ts:116-118 | writes the live record with only the step changed |
| OnboardingPersistence.OnboardingPersistenceService.SaveFormData | apps/frontend/src/shared/lib/persistence/onboarding-persistence.ts:123-131 | writes the live (or default) form overlaid with the fields |
| OnboardingPersistence.OnboardingPersistenceService.GetWithMetadata | apps/frontend/src/shared/lib/persistence/onboarding-persistence.ts:143-160 | present iff a live record exists, with its expiry, time left, formatted time left, start and update instants |
| OnboardingPersistence.OnboardingPersistenceService.Clear | apps/frontend/src/shared/lib/persistence/onboarding-persistence.ts:172-174 | removes exactly the user's key |
| OnboardingPersistence.OnboardingPersistenceService.Exists | apps/frontend/src/shared/lib/persistence/onboarding-persistence.ts:165-167 | true iff a live record exists |
| OnboardingPersistence.OnboardingPersistenceService.RefreshTtl | apps/frontend/src/shared/lib/persistence/onboarding-persistence.ts:179-181 | false iff no live record, and then only an expired record of the user is removed; otherwise it is written again, its lifetime restarting now |
| OnboardingPersistence.OnboardingPersistenceService.GetRemainingTime | apps/frontend/src/shared/lib/persistence/onboarding-persistence.ts:186-188 | none iff no live record; otherwise the non-negative time to expiry |
| OnboardingPersistence.OnboardingPersistenceService.CleanupExpired | apps/frontend/src/shared/lib/persistence/onboarding-persistence.ts:242-244 | removes exactly the stale onboarding entries and counts them |
| OnboardingPersistence.SaveThenGet | apps/frontend/src/shared/lib/persistence/onboarding-persistence.ts:96-138 | right after a save the record reads back as the merge for its whole lifetime |
| Cep.ExtractCepDigits | apps/frontend/src/services/api/cep.service.ts:63-65 | only digits remain, in their order, each digit as often as in the input |
| Cep.ExtractOfDigits | apps/frontend/src/services/api/cep.service.ts:63-65 | digits alone are unchanged, and extracting twice is extracting once |
| Cep.Take | apps/frontend/src/services/api/cep.service.ts:73-152 | slice(0, n): the first n characters, or all when fewer |
| Cep.FormatCep | apps/frontend/src/services/api/cep.service.ts:70-74 | up to five digits unchanged; otherwise the first five, "-", and up to three more |
| Cep.ExtractFormat | apps/frontend/src/services/api/cep.service.ts:70-74 | the digits of the formatted CEP are the first eight digits of the input |
| Cep.ExtractJoin | apps/frontend/src/services/api/cep.service.ts:73 | removing the hyphen gives the two digit runs back |
| Cep.FormatCepIdempotent | apps/frontend/src/services/api/cep.service.ts:70-74 | formatting a formatted CEP changes nothing |
| Cep.FormatValid | apps/frontend/src/services/api/cep.service.ts:70-82 | the formatted CEP is valid iff the input had at least eight digits, and then reads "XXXXX-XXX" |
| Cep.HandleCepChange | apps/frontend/src/services/api/cep.service.ts:147-154 | the mask holds at most eight digits and equals formatCep of the raw value |
| Cep.FetchAddressByCep | apps/frontend/src/services/api/cep.service.ts:87-141 | input without exactly eight digits fails with INVALID_CEP; otherwise an error answer gives NOT_FOUND and a malformed one NETWORK_ERROR ("Erro ao processar resposta"); a failed request whose error has a truthy code is rethrown unchanged, any other gives NETWORK_ERROR ("Erro ao buscar CEP"); a good answer gives the address with a formatted CEP and the street, complement, neighborhood, city and state as answered |
| Cep.ErrorCode | apps/frontend/src/services/api/cep.service.ts:87-141 | the thrown code is NETWORK_ERROR exactly for a bad answer, a request error without a code of its own, or a rethrown error whose code is NETWORK_ERROR |
| Cep.InvalidCepMakesNoRequest | apps/frontend/src/services/api/cep.service.ts:88-97 | refused input fails the same way whatever the lookup would answer |
| Cep.IsValidCepFormat | apps/frontend/src/services/api/cep.service.ts:79-82 | a valid CEP formats as nine characters with a dash at position 5 and keeps its digits |
| BookingFlow.InitialState | apps/frontend/src/features/booking/hooks/useBookingFlow.ts:46-63 | the flow starts at the phone step with an empty form, no time, no client, no result, no error and not loading |
| BookingFlow.Apply | apps/frontend/src/features/booking/hooks/useBookingFlow.ts:80 | each form field comes from the patch when it carries one, else from the form |
| BookingFlow.ApplyLaws | apps/frontend/src/features/booking/hooks/useBookingFlow.ts:80 | an empty patch changes nothing and a patch applied twice is applied once |
| BookingFlow.Reduce | apps/frontend/src/features/booking/hooks/useBookingFlow.ts:69-102 | reset gives the initial state; every other action changes only its own fields, the step and form changes clear the error, and an error ends loading |
| BookingFlow.DispatchAppend | apps/frontend/src/features/booking/hooks/useBookingFlow.ts:113-114 | dispatching two action lists in turn is dispatching their concatenation |
| BookingFlow.DispatchShort | apps/frontend/src/features/booking/hooks/useBookingFlow.ts:113-114 | dispatching one, two or three actions is reducing them in order |
| BookingFlow.DispatchWhileLoading | apps/frontend/src/features/booking/hooks/useBookingFlow.ts:172-208 | a handler's work runs with loading raised, and loading is off at the end whatever the work did |
| BookingFlow.StepOrder | apps/frontend/src/features/booking/hooks/useBookingFlow.ts:135-151 | the order starts at the phone step, ends at success, has no repeats, and has 7 steps iff the client is new (5 without code and registration otherwise) |
| BookingFlow.StepIndex | apps/frontend/src/features/booking/hooks/useBookingFlow.ts:153 | indexOf: -1 iff the step is not in the order, else its position |
| BookingFlow.GoBack | apps/frontend/src/features/booking/hooks/useBookingFlow.ts:132-157 | going back moves one place down the order and clears the error; at the first step or off the order nothing changes |
| BookingFlow.Progress | apps/frontend/src/features/booking/hooks/useBookingFlow.ts:376-397 | between 0 and 100; 100 at success; 0 for a step outside the order |
| BookingFlow.ProgressAtStart | apps/frontend/src/features/booking/hooks/useBookingFlow.ts:376-397 | the phone step shows 20% for a known client and 100/7% for a new one |
| BookingFlow.SelectionGuards | apps/frontend/src/features/booking/hooks/useBookingFlow.ts:309-336 | the services step advances only with a service chosen, the time step only with a time chosen, and choosing a date forgets the time |
| BookingFlow.ErrorText | apps/frontend/src/features/booking/hooks/useBookingFlow.ts:202-204 | an Error's message, otherwise the handler's fallback text |
| BookingFlow.SubmitPhoneSpec | apps/frontend/src/features/booking/hooks/useBookingFlow.ts:170-211 | a known phone goes to the services with its name, a new one (after the code is sent) to the code step; a failure keeps the step and shows the error; loading ends |
| BookingFlow.VerifyOtpSpec | apps/frontend/src/features/booking/hooks/useBookingFlow.ts:216-245 | only an accepted code moves to registration, recording the client id when given; otherwise the step stays and an error shows |
| BookingFlow.RegisterClientSpec | apps/frontend/src/features/booking/hooks/useBookingFlow.ts:269-300 | a registered client is recorded with name and e-mail and moves to the services; a failure keeps step and client |
| BookingFlow.ResendOtpSpec | apps/frontend/src/features/booking/hooks/useBookingFlow.ts:250-264 | resending changes nothing but the error a failure reports |
| BookingFlow.ConfirmBookingSpec | apps/frontend/src/features/booking/hooks/useBookingFlow.ts:341-370 | a created booking is stored and the flow ends at success; a failure keeps the step and the previous result |
| BookingFlow.TotalsAppend | apps/frontend/src/features/booking/hooks/useBookingFlow.ts:403-412 | the totals of two lists joined are the sums of their totals |
| BookingFlow.Dispatch | apps/frontend/src/features/booking/hooks/useBookingFlow.ts:69-102 | dispatching in order keeps the step, the form, the client id and the booking result unless some action sets that field or resets |
| BookingFlow.ConfirmServiceSelectionActions | apps/frontend/src/features/booking/hooks/useBookingFlow.ts:309-313 | moves to the time step iff a service is chosen, and does nothing else |
| BookingFlow.SelectDateActions | apps/frontend/src/features/booking/hooks/useBookingFlow.ts:318-323 | one form patch that sets the date and clears the chosen time, leaving every other field |
| BookingFlow.SelectTimeActions | apps/frontend/src/features/booking/hooks/useBookingFlow.ts:328-330 | one form patch that sets the chosen time, leaving every other field |
| BookingFlow.ConfirmTimeSelectionActions | apps/frontend/src/features/booking/hooks/useBookingFlow.ts:332-336 | moves to the confirmation step iff a time is chosen, and does nothing else |
| BookingFlow.SubmitPhoneActions | apps/frontend/src/features/booking/hooks/useBookingFlow.ts:170-211 | loading is raised first and lowered last, with no reset or loading change between |
| BookingFlow.VerifyOtpActions | apps/frontend/src/features/booking/hooks/useBookingFlow.ts:216-245 | loading is raised first and lowered last, with no reset or loading change between |
| BookingFlow.ResendOtpActions | apps/frontend/src/features/booking/hooks/useBookingFlow.ts:250-264 | loading is raised first and lowered last, with no reset or loading change between |
| BookingFlow.RegisterClientActions | apps/frontend/src/features/booking/hooks/useBookingFlow.ts:269-300 | loading is raised first and lowered last, with no reset or loading change between |
| BookingFlow.ConfirmBookingActions | apps/frontend/src/features/booking/hooks/useBookingFlow.ts:341-370 | loading is raised first and lowered last, with no reset or loading change between |
| BookingFlow.TotalPrice | apps/frontend/src/features/booking/hooks/useBookingFlow.ts:403-406 | the sum of the chosen prices is not negative when no price is |
| BookingFlow.TotalDuration | apps/frontend/src/features/booking/hooks/useBookingFlow.ts:408-412 | the sum of the chosen durations is not negative when no duration is |
| Booking.BookingEntity.constructor | apps/api/src/domain/entities/bookings/booking.entity.ts:33-38 | the booking holds the given fields, with status confirmed when none is given |
| Booking.BookingEntity.Complete | apps/api/src/domain/entities/bookings/booking.entity.ts:76-79 | only the status changes, to completed, and the booking is touched |
| Booking.BookingEntity.MarkNoShow | apps/api/src/domain/entities/bookings/booking.entity.ts:81-84 | only the status changes, to no_show, and the booking is touched |
| Booking.BookingEntity.Cancel | apps/api/src/domain/entities/bookings/booking.entity.ts:86-89 | only the status changes, to cancelled, and the booking is touched |
| Booking.OverlapsWithSpans | apps/api/src/domain/entities/bookings/booking.entity.ts:94-101 | two bookings overlap iff their half-open spans intersect; the relation is symmetric and back-to-back bookings do not overlap |
| Booking.ValidateNotInPast | apps/api/src/domain/entities/bookings/booking.entity.ts:106-122 | passes iff neither the start nor the end lies before now; otherwise BookingInPast |
| Booking.NotInPastOnlyStartMatters | apps/api/src/domain/entities/bookings/booking.entity.ts:106-122 | for a booking whose end is not before its start, only the start decides |
| Booking.ValidateTimeRange | apps/api/src/domain/entities/bookings/booking.entity.ts:127-136 | passes iff the start is before the end; otherwise InvalidTimeRange |
| Booking.MinutesBetween | apps/api/src/domain/entities/bookings/booking.entity.ts:145-146 | the floored count of whole minutes between two instants |
| Booking.ValidateMinimumAdvance | apps/api/src/domain/entities/bookings/booking.entity.ts:142-153 | fails with BookingTooClose iff the start is less than the minimum advance after now |
| Booking.ValidateMaxDuration | apps/api/src/domain/entities/bookings/booking.entity.ts:159-170 | fails with ExceedsMaxDuration iff the floored duration exceeds the maximum, i.e. the span lasts at least max + 1 minutes |
| Booking.ValidateIsMultipleOfSlot | apps/api/src/domain/entities/bookings/booking.entity.ts:176-187 | passes only for a non-zero slot; for a positive slot passes iff the floored duration is a whole number of slots |
| Booking.WholeSlotsPass | apps/api/src/domain/entities/bookings/booking.entity.ts:176-187 | a booking lasting exactly k slots passes |
| BookingRepository.DayWindow | apps/api/src/infra/repositories/in-memory/bookings/in-memory-booking.repository.ts:117-118 | an instant lies between a day's 00:00:00.000 and 23:59:59.999 iff it falls on that UTC day |
| BookingRepository.InDateRange | apps/api/src/infra/repositories/in-memory/bookings/in-memory-booking.repository.ts:82-91 | exactly the user's bookings touching the closed range, in store order: a subsequence of the store |
| BookingRepository.InMemoryBookingRepository.constructor | apps/api/src/infra/repositories/in-memory/bookings/in-memory-booking.repository.ts:13 | the store starts empty |
| BookingRepository.InMemoryBookingRepository.Create | apps/api/src/infra/repositories/in-memory/bookings/in-memory-booking.repository.ts:37-48 | the booking is appended and returned |
| BookingRepository.InMemoryBookingRepository.Update | apps/api/src/infra/repositories/in-memory/bookings/in-memory-booking.repository.ts:50-59 | the first record with the id is replaced and returned; with none, NotFound and nothing changes |
| BookingRepository.InMemoryBookingRepository.Delete | apps/api/src/infra/repositories/in-memory/bookings/in-memory-booking.repository.ts:61-67 | the first record with the id is removed and true returned; with none, false and nothing changes |
| BookingRepository.InMemoryBookingRepository.FindById | apps/api/src/infra/repositories/in-memory/bookings/in-memory-booking.repository.ts:69-72 | none iff no record has the id; otherwise the first stored record with it |
| BookingRepository.InMemoryBookingRepository.FindByUserIdAndDateRange | apps/api/src/infra/repositories/in-memory/bookings/in-memory-booking.repository.ts:74-92 | a booking is returned iff it is stored, is the user's, starts by the range's end and ends no earlier than its start |
| BookingRepository.InMemoryBookingRepository.FindOverlapping | apps/api/src/infra/repositories/in-memory/bookings/in-memory-booking.repository.ts:94-113 | a booking is returned iff it is stored, is the user's and its span overlaps the half-open range |
| BookingRepository.InMemoryBookingRepository.CountByUserAndDate | apps/api/src/infra/repositories/in-memory/bookings/in-memory-booking.repository.ts:115-128 | the count is bounded by the store size; which bookings it counts is stated by CountByUserAndDateIsDayCount |
| BookingRepository.InMemoryBookingRepository.CountByClientAndUserAndDate | apps/api/src/infra/repositories/in-memory/bookings/in-memory-booking.repository.ts:130-148 | the count is bounded by the store size; ClientCountAtMostUserCount bounds it by the professional's day count, which CountByUserAndDateIsDayCount describes |
| BookingRepository.ClientCountAtMostUserCount | apps/api/src/infra/repositories/in-memory/bookings/in-memory-booking.repository.ts:115-148 | a client's count with a professional on a day never exceeds the professional's count |
| BookingRepository.CountByUserAndDateIsDayCount | apps/api/src/infra/repositories/in-memory/bookings/in-memory-booking.repository.ts:115-128 | the day count is the number of the user's confirmed bookings starting on that UTC day |
| BookingRepository.InDateRangeAppend | apps/api/src/infra/repositories/in-memory/bookings/in-memory-booking.repository.ts:43-91 | a newly created booking appears in a range query exactly when it matches |
| UnitAvailabilityRule.ValidateTypeSpecificFields | apps/api/src/domain/entities/units/unit-availability-rule.entity.ts:49-73 | a weekly rule passes iff it has a weekday in 0..6 and no date; a date rule iff it has a YYYY-MM-DD date and no weekday; the missing-field errors come first |
| UnitAvailabilityRule.ValidateTimeFormat | apps/api/src/domain/entities/units/unit-availability-rule.entity.ts:75-80 | passes iff the time is HH:MM with hours 00-23 and minutes 00-59; otherwise the given field's error |
| UnitAvailabilityRule.ValidateTimeRange | apps/api/src/domain/entities/units/unit-availability-rule.entity.ts:82-88 | passes iff the start sorts strictly before the end as text, which for clock times is the earlier minute |
| UnitAvailabilityRule.ValidateSlotDuration | apps/api/src/domain/entities/units/unit-availability-rule.entity.ts:90-94 | passes iff the slot length is positive |
| UnitAvailabilityRule.ValidateTimes | apps/api/src/domain/entities/units/unit-availability-rule.entity.ts:137-139 | passes iff both times are clock times and the start is before the end |
| UnitAvailabilityRule.ValidateRule | apps/api/src/domain/entities/units/unit-availability-rule.entity.ts:36-40 | passes iff every field check passes, reporting the first that fails |
| UnitAvailabilityRule.UnitAvailabilityRuleEntity.Make | apps/api/src/domain/entities/units/unit-availability-rule.entity.ts:34-47 | the rule holds the given fields and is valid |
| UnitAvailabilityRule.UnitAvailabilityRuleEntity.UpdateTimes | apps/api/src/domain/entities/units/unit-availability-rule.entity.ts:136-144 | on valid times both are replaced and the rule touched; otherwise nothing changes; the rule stays valid |
| UnitAvailabilityRule.UnitAvailabilityRuleEntity.UpdateSlotDuration | apps/api/src/domain/entities/units/unit-availability-rule.entity.ts:146-150 | a positive length replaces the old one; otherwise nothing changes; the rule stays valid |
| UnitAvailabilityRule.UnitAvailabilityRuleEntity.Activate | apps/api/src/domain/entities/units/unit-availability-rule.entity.ts:152-155 | only the active flag and the update time change |
| UnitAvailabilityRule.UnitAvailabilityRuleEntity.Deactivate | apps/api/src/domain/entities/units/unit-availability-rule.entity.ts:157-160 | only the active flag and the update time change |
| UnitAvailabilityRule.CreateRule | apps/api/src/domain/entities/units/unit-availability-rule.entity.ts:34-47 | a rule is created iff all checks pass, active by default; otherwise the first failing check's error |
| UnitAvailabilityRule.ValidRuleInterval | apps/api/src/domain/entities/units/unit-availability-rule.entity.ts:75-88 | a valid rule's hours form a non-empty interval inside any day |
| UnitAvailabilityException.ValidateOverrideFields | apps/api/src/domain/entities/units/unit-availability-exception.entity.ts:88-94 | passes iff both times are clock times, the start is before the end and the slot length is positive |
| UnitAvailabilityException.ValidateException | apps/api/src/domain/entities/units/unit-availability-exception.entity.ts:24-96 | passes iff the date is YYYY-MM-DD and a block carries no override field while an override carries all three valid ones; a malformed date is reported first |
| UnitAvailabilityException.Stored | apps/api/src/domain/entities/units/unit-availability-exception.entity.ts:31-37 | an accepted input is stored in a form the entity accepts, absent fields as "" and 0 |
| UnitAvailabilityException.ReadString | apps/api/src/domain/entities/units/unit-availability-exception.entity.ts:112-126 | an empty stored string reads back as absent, any other as itself |
| UnitAvailabilityException.ReadNumber | apps/api/src/domain/entities/units/unit-availability-exception.entity.ts:120-122 | a stored 0 reads back as absent, any other number as itself |
| UnitAvailabilityException.UnitAvailabilityExceptionEntity.Make | apps/api/src/domain/entities/units/unit-availability-exception.entity.ts:24-38 | the exception holds the given fields and is valid |
| UnitAvailabilityException.UnitAvailabilityExceptionEntity.UpdateOverrideTimes | apps/api/src/domain/entities/units/unit-availability-exception.entity.ts:130-151 | a block is refused; an override takes valid new times and length and is touched; otherwise nothing changes; validity is kept |
| UnitAvailabilityException.UnitAvailabilityExceptionEntity.UpdateReason | apps/api/src/domain/entities/units/unit-availability-exception.entity.ts:153-156 | only the reason and the update time change; an empty reason then reads as absent |
| UnitAvailabilityException.CreateException | apps/api/src/domain/entities/units/unit-availability-exception.entity.ts:24-38 | created iff the input passes the checks, storing its normalised form; otherwise the first failing check's error |
| UnitAvailabilityException.StoredReadBack | apps/api/src/domain/entities/units/unit-availability-exception.entity.ts:31-126 | an accepted input's optional fields read back exactly as given, an empty reason as absent |
| UnitAvailabilityException.ValidExceptionFields | apps/api/src/domain/entities/units/unit-availability-exception.entity.ts:61-122 | a stored override reads back all three override fields and a block none |
| UnitAvailableSlots.RulesToIntervals | apps/api/src/application/usecases/units/availability/get-unit-available-slots.usecase.ts:88-96 | one interval per rule, in order, from its start to its end time on the date, each non-empty |
| UnitAvailableSlots.RulesPlan | apps/api/src/application/usecases/units/availability/get-unit-available-slots.usecase.ts:52-69 | the slot length is positive and every interval is non-empty |
| UnitAvailableSlots.UnitPlan | apps/api/src/application/usecases/units/availability/get-unit-available-slots.usecase.ts:18-72 | the chosen plan always has a positive slot length and non-empty intervals |
| UnitAvailableSlots.Execute | apps/api/src/application/usecases/units/availability/get-unit-available-slots.usecase.ts:18-139 | the slots are those of the day's plan, merged and cut back-to-back; none when the plan has no interval |
| UnitAvailableSlots.BlockYieldsNothing | apps/api/src/application/usecases/units/availability/get-unit-available-slots.usecase.ts:27-29 | a block exception gives no slots |
| UnitAvailableSlots.SpecificRulesShadowWeekly | apps/api/src/application/usecases/units/availability/get-unit-available-slots.usecase.ts:47-57 | once any rule exists for the date, even inactive, the weekly rules are ignored |
| UnitAvailableSlots.RulesPlanSpec | apps/api/src/application/usecases/units/availability/get-unit-available-slots.usecase.ts:54-69 | the plan has one interval per active rule and the first active rule's slot length, or 60 when none is active |
| UnitAvailableSlots.InactiveRuleIgnored | apps/api/src/application/usecases/units/availability/get-unit-available-slots.usecase.ts:54-67 | adding an inactive rule changes neither intervals nor slot length |
| UnitAvailableSlots.AllInactiveYieldsNothing | apps/api/src/application/usecases/units/availability/get-unit-available-slots.usecase.ts:52-76 | when every rule of the chosen kind is inactive there are no slots |
| UnitAvailableSlots.UnitSlotsShape | apps/api/src/application/usecases/units/availability/get-unit-available-slots.usecase.ts:79-139 | each merged interval yields floor(length / slot length) back-to-back slots of exactly that length, each bound an "HH:MM" string |
| Subscription.SubscriptionEntity.constructor | apps/api/src/domain/entities/billing/subscription.entity.ts:52-63 | the status defaults to incomplete and the cancel-at-period-end flag to false |
| Subscription.SubscriptionEntity.Activate | apps/api/src/domain/entities/billing/subscription.entity.ts:121-130 | rejected iff already active, changing nothing; otherwise active with both cancellation marks cleared |
| Subscription.SubscriptionEntity.Cancel | apps/api/src/domain/entities/billing/subscription.entity.ts:132-148 | rejected iff canceled or expired; an immediate cancel sets canceled and the cancel time, a deferred one only the flag |
| Subscription.SubscriptionEntity.Reactivate | apps/api/src/domain/entities/billing/subscription.entity.ts:150-264 | succeeds iff canceled with the period still running, then active with both marks cleared; otherwise nothing changes |
| Subscription.SubscriptionEntity.UpdateStatus | apps/api/src/domain/entities/billing/subscription.entity.ts:163-186 | only the status and the update time change |
| Subscription.SubscriptionEntity.UpdatePeriod | apps/api/src/domain/entities/billing/subscription.entity.ts:188-196 | rejected iff the start is not before the end, changing nothing; otherwise both bounds are replaced |
| Subscription.SubscriptionEntity.ApplyDiscount | apps/api/src/domain/entities/billing/subscription.entity.ts:198-201 | only the discount and the update time change |
| Subscription.SubscriptionEntity.RemoveDiscount | apps/api/src/domain/entities/billing/subscription.entity.ts:203-206 | the discount is cleared and nothing else but the update time changes |
| Subscription.SubscriptionEntity.ExtendTrial | apps/api/src/domain/entities/billing/subscription.entity.ts:208-219 | rejected iff the days are negative; otherwise the trial ends that many days after its old end, or after now when there was none |
| Subscription.SubscriptionEntity.UpdateProviderSubscriptionId | apps/api/src/domain/entities/billing/subscription.entity.ts:221-224 | only the provider id and the update time change |
| Subscription.SubscriptionEntity.UpdatePlan | apps/api/src/domain/entities/billing/subscription.entity.ts:226-229 | only the plan and the update time change |
| Subscription.SubscriptionEntity.IsActive | apps/api/src/domain/entities/billing/subscription.entity.ts:231-236 | active iff the status is active or trialing |
| Subscription.SubscriptionEntity.IsInTrial | apps/api/src/domain/entities/billing/subscription.entity.ts:238-246 | in trial iff trialing with a trial end in the future; a subscription in trial is active |
| Subscription.SubscriptionEntity.CanAccessFeatures | apps/api/src/domain/entities/billing/subscription.entity.ts:252-257 | feature access is exactly being active |
| Subscription.SubscriptionEntity.CanBeReactivated | apps/api/src/domain/entities/billing/subscription.entity.ts:259-264 | only a canceled subscription whose period has not ended can be reactivated, and such a one is not active |
| Subscription.SubscriptionEntity.HasExpired | apps/api/src/domain/entities/billing/subscription.entity.ts:248-250 | an expired subscription has no feature access |
| Subscription.SubscriptionEntity.IsPastDue | apps/api/src/domain/entities/billing/subscription.entity.ts:266-268 | a past-due subscription has no feature access |
| Subscription.SubscriptionEntity.IsUnpaid | apps/api/src/domain/entities/billing/subscription.entity.ts:270-272 | an unpaid subscription has no feature access |
| Discount.ValidateDiscount | apps/api/src/domain/entities/billing/discount.entity.ts:218-241 | passes iff a percentage is within 0..100, a fixed value non-negative, a free period positive and a repeating discount has a positive count; a percentage above 100 is reported first |
| Discount.ValidForUserSpec | apps/api/src/domain/entities/billing/discount.entity.ts:150-176 | a discount assigned to one user is valid for nobody else; an unassigned valid discount is valid for every user |
| Discount.ValidateForUser | apps/api/src/domain/entities/billing/discount.entity.ts:178-196 | fails iff the discount is not valid for the user; a wrong assignee is reported before inactivity, expiry and the maximum |
| Discount.RedeemCheck | apps/api/src/domain/entities/billing/discount.entity.ts:114-148 | passes iff the discount can be redeemed; inactivity is reported first, then expiry |
| Discount.RedeemWithinMax | apps/api/src/domain/entities/billing/discount.entity.ts:123-145 | a redemption allowed by the check never takes the count past the maximum |
| Discount.DiscountEntity.Make | apps/api/src/domain/entities/billing/discount.entity.ts:55-68 | the discount holds the given well-formed fields |
| Discount.DiscountEntity.Redeem | apps/api/src/domain/entities/billing/discount.entity.ts:114-129 | on success the count grows by exactly one; on failure, the check's error and nothing changes; well-formedness is kept |
| Discount.DiscountEntity.Deactivate | apps/api/src/domain/entities/billing/discount.entity.ts:198-201 | only the active flag and the update time change |
| Discount.DiscountEntity.Activate | apps/api/src/domain/entities/billing/discount.entity.ts:203-206 | only the active flag and the update time change |
| Discount.DiscountEntity.UpdateMaxRedemptions | apps/api/src/domain/entities/billing/discount.entity.ts:208-211 | only the maximum and the update time change |
| Discount.DiscountEntity.UpdateExpiration | apps/api/src/domain/entities/billing/discount.entity.ts:213-216 | only the expiry and the update time change |
| Discount.CreateDiscount | apps/api/src/domain/entities/billing/discount.entity.ts:55-241 | the count defaults to 0 and the flag to active; created iff the check passes, otherwise its first error |
| Discount.IsExpired | apps/api/src/domain/entities/billing/discount.entity.ts:150-156 | without an expiry never expired; not expired up to and at the expiry instant |
| Discount.CanBeRedeemed | apps/api/src/domain/entities/billing/discount.entity.ts:131-148 | redeemable iff active, not expired, and below the maximum when there is one |
| Discount.IsValidForUser | apps/api/src/domain/entities/billing/discount.entity.ts:158-176 | valid for a user iff redeemable and unassigned or assigned to that user |
| Invoice.ValidateLineItem | apps/api/src/domain/entities/billing/invoice.entity.ts:198-210 | passes iff the description is not blank, the amount is non-negative and the quantity positive; a blank description is reported first |
| Invoice.ValidateLineItems | apps/api/src/domain/entities/billing/invoice.entity.ts:194-196 | passes iff every item passes |
| Invoice.LineTotalNonNegative | apps/api/src/domain/entities/billing/invoice.entity.ts:179-209 | a valid item contributes a non-negative amount |
| Invoice.TotalAppend | apps/api/src/domain/entities/billing/invoice.entity.ts:158-183 | appending an item adds its amount times quantity to the total |
| Invoice.TotalNonNegative | apps/api/src/domain/entities/billing/invoice.entity.ts:179-183 | the total of valid items is non-negative |
| Invoice.TotalConcat | apps/api/src/domain/entities/billing/invoice.entity.ts:179-183 | the total of two lists joined is the sum of their totals |
| Invoice.TotalRemoveAt | apps/api/src/domain/entities/billing/invoice.entity.ts:174-183 | removing an item subtracts exactly its contribution from the total |
| Invoice.ItemsOkRemoveAt | apps/api/src/domain/entities/billing/invoice.entity.ts:174 | removing an item keeps the remaining items valid |
| Invoice.ItemsOkAppend | apps/api/src/domain/entities/billing/invoice.entity.ts:157-158 | appending a valid item keeps all items valid |
| Invoice.InvoiceEntity.Make | apps/api/src/domain/entities/billing/invoice.entity.ts:49-59 | the invoice holds the given fields, whose items are valid |
| Invoice.InvoiceEntity.MarkAsPaid | apps/api/src/domain/entities/billing/invoice.entity.ts:101-113 | rejected iff paid (already paid) or void (cannot be modified), changing nothing; otherwise paid with the payment time |
| Invoice.InvoiceEntity.MarkAsUncollectible | apps/api/src/domain/entities/billing/invoice.entity.ts:115-126 | rejected iff paid or void, changing nothing; otherwise uncollectible |
| Invoice.InvoiceEntity.MarkAsVoid | apps/api/src/domain/entities/billing/invoice.entity.ts:128-135 | rejected iff paid, changing nothing; otherwise void |
| Invoice.InvoiceEntity.UpdateStatus | apps/api/src/domain/entities/billing/invoice.entity.ts:137-140 | only the status and the update time change |
| Invoice.InvoiceEntity.UpdateProviderInvoiceId | apps/api/src/domain/entities/billing/invoice.entity.ts:185-188 | only the provider id and the update time change |
| Invoice.InvoiceEntity.AddLineItem | apps/api/src/domain/entities/billing/invoice.entity.ts:150-192 | a non-open invoice or an invalid item is refused unchanged; otherwise the item is appended and the amount is the new total |
| Invoice.InvoiceEntity.RemoveLineItem | apps/api/src/domain/entities/billing/invoice.entity.ts:163-192 | a non-open invoice or an index out of range is refused unchanged; otherwise exactly that item goes and the amount is the new total |
| Invoice.CreateInvoice | apps/api/src/domain/entities/billing/invoice.entity.ts:49-210 | the status defaults to open; created iff every item is valid, otherwise the first item error |
| Invoice.Total | apps/api/src/domain/entities/billing/invoice.entity.ts:179-183 | the total is not negative when no line contributes a negative amount |
| Invoice.InvoiceEntity.IsOverdue | apps/api/src/domain/entities/billing/invoice.entity.ts:142-144 | overdue only when open and past the due date, and then not paid |
| Invoice.InvoiceEntity.IsPaid | apps/api/src/domain/entities/billing/invoice.entity.ts:146-148 | paid iff the status is paid |
| PaymentGateway.SessionMetadata | apps/api/src/infra/services/billing/fake-payment-gateway.service.ts:30-36 | the caller's metadata overrides key by key; the keys are the caller's plus user, plan, coupon and trial; user and plan are the caller's unless overridden |
| PaymentGateway.InitialStatus | apps/api/src/infra/services/billing/fake-payment-gateway.service.ts:51 | trialing iff the trial ends after now, otherwise active |
| PaymentGateway.Updated | apps/api/src/infra/services/billing/fake-payment-gateway.service.ts:73-77 | an absent flag or metadata keeps the old one; nothing else changes |
| PaymentGateway.Canceled | apps/api/src/infra/services/billing/fake-payment-gateway.service.ts:93-97 | the flag is the one given; the status becomes canceled unless cancelling at period end; nothing else changes |
| PaymentGateway.Reactivated | apps/api/src/infra/services/billing/fake-payment-gateway.service.ts:110-114 | active with the flag cleared; nothing else changes |
| PaymentGateway.ReactivateUndoesCancel | apps/api/src/infra/services/billing/fake-payment-gateway.service.ts:83-118 | reactivating after any cancel gives what reactivating alone gives, which is the subscription itself when it was active and not set to cancel |
| PaymentGateway.UpdateLaws | apps/api/src/infra/services/billing/fake-payment-gateway.service.ts:63-81 | an update with nothing given changes nothing, and two updates compose into one |
| PaymentGateway.VerifyWebhookSignature | apps/api/src/infra/services/billing/fake-payment-gateway.service.ts:134-138 | accepted iff the signature is the fixed fake one, whatever the payload |
| PaymentGateway.FakePaymentGateway.constructor | apps/api/src/infra/services/billing/fake-payment-gateway.service.ts:15-17 | all three maps start empty |
| PaymentGateway.FakePaymentGateway.CreateCheckoutSession | apps/api/src/infra/services/billing/fake-payment-gateway.service.ts:19-41 | the session's id, URL, one-hour expiry and metadata are as described and only the session map gains it |
| PaymentGateway.FakePaymentGateway.CreateSubscription | apps/api/src/infra/services/billing/fake-payment-gateway.service.ts:43-61 | a subscription with the initial status and no cancel flag is stored under an id made from now; the other maps are untouched |
| PaymentGateway.FakePaymentGateway.UpdateSubscription | apps/api/src/infra/services/billing/fake-payment-gateway.service.ts:63-81 | an unknown id fails and changes nothing; otherwise only that entry is replaced by its update |
| PaymentGateway.FakePaymentGateway.CancelSubscription | apps/api/src/infra/services/billing/fake-payment-gateway.service.ts:83-101 | an unknown id fails and changes nothing; otherwise only that entry is replaced by its cancellation |
| PaymentGateway.FakePaymentGateway.ReactivateSubscription | apps/api/src/infra/services/billing/fake-payment-gateway.service.ts:103-118 | an unknown id fails and changes nothing; otherwise only that entry is replaced by its reactivation |
| PaymentGateway.FakePaymentGateway.CreateInvoice | apps/api/src/infra/services/billing/fake-payment-gateway.service.ts:120-132 | an open invoice for the amount is stored under an id made from now; the other maps are untouched |
| PaymentGateway.FakePaymentGateway.SimulateCheckoutCompleted | apps/api/src/infra/services/billing/fake-payment-gateway.service.ts:152-168 | fails iff the session is unknown; otherwise a checkout-completed event for that session |
| PaymentGateway.FakePaymentGateway.SimulateInvoicePaid | apps/api/src/infra/services/billing/fake-payment-gateway.service.ts:170-193 | an unknown id fails and changes nothing; otherwise only that invoice becomes paid at now, reported with its amount |
| PaymentGateway.CheckoutReportsUserAndPlan | apps/api/src/infra/services/billing/fake-payment-gateway.service.ts:26-168 | completing a session reports the user and plan it was created with, unless the caller's metadata overrode them |
| SendNotification.EnabledChannels | apps/api/src/application/usecases/notifications/send-notification.usecase.ts:41-66 | with override, with no target user, or with no preference for the category, the requested channels; otherwise a subsequence of them, never more |
| SendNotification.PreferenceFilters | apps/api/src/application/usecases/notifications/send-notification.usecase.ts:51-59 | with the user's preference for the category found, a channel is enabled iff it is requested and the preference enables it |
| SendNotification.MakeNotification | apps/api/src/application/usecases/notifications/send-notification.usecase.ts:83-91 | the target defaults to "system"; the channel, message id and id are those given |
| SendNotification.MakeAll | apps/api/src/application/usecases/notifications/send-notification.usecase.ts:82-95 | one notification per enabled channel, in order |
| SendNotification.PublishAll | apps/api/src/application/usecases/notifications/send-notification.usecase.ts:97-110 | one event per notification, on the topic "notifications." plus its channel, in order |
| SendNotification.NotificationCenter.constructor | apps/api/src/application/usecases/notifications/send-notification.usecase.ts:25-28 | nothing stored and nothing published |
| SendNotification.NotificationCenter.Execute | apps/api/src/application/usecases/notifications/send-notification.usecase.ts:30-114 | an invalid channel fails first and changes nothing; a used message id gives [] and changes nothing; otherwise one notification per enabled channel is stored and published, in order |
| SendNotification.NotificationCenter.CreateAndPublish | apps/api/src/application/usecases/notifications/send-notification.usecase.ts:82-111 | exactly the notifications for the channels are appended to the store and their events to the queue, in order |
| SendNotification.ValidateChannels | apps/api/src/application/usecases/notifications/send-notification.usecase.ts:33-39 | passes iff every channel is email, whatsapp or push; otherwise reports the first that is not |
| SendNotification.SentMessageIdIsUsed | apps/api/src/application/usecases/notifications/send-notification.usecase.ts:71-95 | after a send that created something, its message id counts as used, so a repeat sends nothing |
| SendNotification.ValidChannel | apps/api/src/application/usecases/notifications/send-notification.usecase.ts:33-39 | exactly "email", "whatsapp" and "push" are channels |
| Unit.ToPhone | apps/api/src/domain/entities/units/unit.entity.ts:16 | the phone keeps area code, number and country code; the WhatsApp and verified flags default to false |
| Unit.ToPhones | apps/api/src/domain/entities/units/unit.entity.ts:16 | one phone per input, in order |
| Unit.NewUnit | apps/api/src/domain/entities/units/unit.entity.ts:15-39 | active defaults to true and preferences to empty; an empty logo is no logo; one phone per input |
| Unit.UnitEntity.Make | apps/api/src/domain/entities/units/unit.entity.ts:15-39 | the unit holds the given fields |
| Unit.UnitEntity.UpdateName | apps/api/src/domain/entities/units/unit.entity.ts:91-102 | a blank name is refused unchanged; the current name changes nothing, not even the timestamp; any other name replaces it |
| Unit.UnitEntity.UpdateLogo | apps/api/src/domain/entities/units/unit.entity.ts:104-107 | only the logo and the timestamp change |
| Unit.UnitEntity.UpdateGallery | apps/api/src/domain/entities/units/unit.entity.ts:109-112 | only the gallery and the timestamp change |
| Unit.UnitEntity.Activate | apps/api/src/domain/entities/units/unit.entity.ts:114-117 | only the active flag and the timestamp change |
| Unit.UnitEntity.Deactivate | apps/api/src/domain/entities/units/unit.entity.ts:119-122 | only the active flag and the timestamp change |
| Unit.UnitEntity.UpdatePhones | apps/api/src/domain/entities/units/unit.entity.ts:124-127 | only the phones and the timestamp change |
| Unit.UnitEntity.UpdateAddress | apps/api/src/domain/entities/units/unit.entity.ts:129-132 | only the address and the timestamp change |
| Unit.UnitEntity.UpdateEspecialidades | apps/api/src/domain/entities/units/unit.entity.ts:134-137 | only the specialties and the timestamp change |
| Unit.UnitEntity.UpdateServices | apps/api/src/domain/entities/units/unit.entity.ts:139-142 | only the services and the timestamp change |
| Unit.UnitEntity.UpdateServiceType | apps/api/src/domain/entities/units/unit.entity.ts:144-147 | only the service type and the timestamp change |
| Unit.UnitEntity.UpdateAmenities | apps/api/src/domain/entities/units/unit.entity.ts:149-152 | only the amenities and the timestamp change |
| Unit.UnitEntity.UpdatePreferences | apps/api/src/domain/entities/units/unit.entity.ts:154-157 | only the preferences and the timestamp change |
| Unit.ApplySpec | apps/api/src/application/usecases/units/update-unit.usecase.ts:34-94 | on success every field given is applied (name, preferences, logo, gallery, active, address, service type as given; phones as the phones built from the input; specialties, services and amenities as exactly the records the catalogue lookup returned) and every field not given keeps its value; a blank name rejects; a catalogue finding fewer records than ids rejects |
| Unit.UnitStore.constructor | apps/api/src/application/usecases/units/update-unit.usecase.ts:20-25 | the store starts empty |
| Unit.UpdateUnit | apps/api/src/application/usecases/units/update-unit.usecase.ts:27-97 | an unknown id fails and changes nothing; otherwise the result is the request applied, a failure leaves the store alone, and a success stores the unit with the timestamp moved iff something changed |
| Unit.StepsCompose | apps/api/src/application/usecases/units/update-unit.usecase.ts:34-94 | the name step, the plain steps and the catalogue steps in order make up the whole request, and the timestamp moves iff one of them changes something |
| Unit.ApplyPlainFields | apps/api/src/application/usecases/units/update-unit.usecase.ts:38-66 | the plain fields given are applied and the timestamp moves iff one was given |
| Unit.ApplyLookFields | apps/api/src/application/usecases/units/update-unit.usecase.ts:38-49 | preferences, logo and gallery, when given, replace the old ones |
| Unit.ApplyContactFields | apps/api/src/application/usecases/units/update-unit.usecase.ts:51-66 | the active flag, phones and address, when given, replace the old ones; a null address clears it |
| Unit.ApplyCatalogueFields | apps/api/src/application/usecases/units/update-unit.usecase.ts:68-94 | fails with the first catalogue that finds fewer records than ids; otherwise the records found and the service type replace the old ones |
| Unit.NameOk | apps/api/src/domain/entities/units/unit.entity.ts:92 | a name is accepted iff it is not all white space |
| Unit.ApplyRejections | apps/api/src/application/usecases/units/update-unit.usecase.ts:34-94 | rejections come in source order: a blank name, then missing specialties, services, amenities; with all found the edit succeeds |
| Catalogue.SortNewestFirst | apps/api/src/infra/repositories/in-memory/in-memory-amenity.repository.ts:40-42 | the records reordered newest first, none lost or added |
| Catalogue.AfterCursor | apps/api/src/infra/repositories/in-memory/in-memory-amenity.repository.ts:44-52 | without a cursor everything; with one, exactly the records strictly after it in (created_at, id) order |
| Catalogue.SliceTo | apps/api/src/infra/repositories/in-memory/in-memory-amenity.repository.ts:54-56 | a prefix of the list, as long as asked for or the whole list |
| Catalogue.Paginate | apps/api/src/infra/repositories/in-memory/in-memory-amenity.repository.ts:38-60 | a page is a prefix of at most min(limit, maximum) items; more remain iff the list is longer, and then the page is full; the next cursor is the last item's key and absent when nothing remains |
| Catalogue.PageOfList | apps/api/src/infra/repositories/in-memory/in-memory-amenity.repository.ts:54-56 | a page holds items of the list in the list's order |
| Catalogue.ListPage | apps/api/src/infra/repositories/in-memory/in-memory-amenity.repository.ts:34-67 | every listed record is stored and after the cursor, and the page is newest first |
| Catalogue.FilterKeepsOrder | apps/api/src/infra/repositories/in-memory/in-memory-amenity.repository.ts:44-52 | cutting at a cursor keeps the newest-first order |
| Catalogue.ListWhere | apps/api/src/infra/repositories/in-memory/in-memory-amenity.repository.ts:69-102 | every record listed is stored, satisfies the filter and lies after the cursor, newest first |
| Catalogue.ListPageComplete | apps/api/src/infra/repositories/in-memory/in-memory-amenity.repository.ts:34-67 | with room for everything and no cursor, the page holds every record once and nothing more remains |
| Catalogue.ListWhereComplete | apps/api/src/infra/repositories/in-memory/in-memory-amenity.repository.ts:69-102 | with room for everything and no cursor, a filtered page holds exactly the records passing the filter |
| Catalogue.MatchesTextLaws | apps/api/src/infra/repositories/in-memory/in-memory-service.repository.ts:76-81 | the text search ignores the query's case, and the empty query matches every record |
| Catalogue.InMemoryCatalogue.constructor | apps/api/src/infra/repositories/in-memory/in-memory-amenity.repository.ts:16 | the store starts empty |
| Catalogue.InMemoryCatalogue.Create | apps/api/src/infra/repositories/in-memory/in-memory-amenity.repository.ts:18-22 | the record is appended and returned |
| Catalogue.InMemoryCatalogue.FindById | apps/api/src/infra/repositories/in-memory/in-memory-amenity.repository.ts:24-27 | none iff no record has the id; otherwise the first stored record with it |
| Catalogue.InMemoryCatalogue.FindByCode | apps/api/src/infra/repositories/in-memory/in-memory-amenity.repository.ts:29-32 | none iff no record has the code; otherwise the first stored record with it |
| Catalogue.InMemoryCatalogue.Update | apps/api/src/infra/repositories/in-memory/in-memory-amenity.repository.ts:153-162 | the first record with the id is overwritten and the entity returned; with none, not found and nothing changes |
| Catalogue.InMemoryCatalogue.Delete | apps/api/src/infra/repositories/in-memory/in-memory-amenity.repository.ts:164-170 | the first record with the id is removed and true returned; with none, false and nothing changes |
| Catalogue.InMemoryCatalogue.List | apps/api/src/infra/repositories/in-memory/in-memory-amenity.repository.ts:34-67 | every listed record is stored and after the cursor, and the page is newest first |
| AmenityRepository.ListActive | apps/api/src/infra/repositories/in-memory/in-memory-amenity.repository.ts:69-102 | only stored active amenities after the cursor, newest first |
| AmenityRepository.ListActiveComplete | apps/api/src/infra/repositories/in-memory/in-memory-amenity.repository.ts:69-102 | with room for everything, the first page holds exactly the active amenities |
| AmenityRepository.ScoreAll | apps/api/src/infra/repositories/in-memory/in-memory-amenity.repository.ts:112-116 | every amenity paired with its match outcome, in order |
| AmenityRepository.RanksBeforeIsStrictOrder | apps/api/src/infra/repositories/in-memory/in-memory-amenity.repository.ts:119-124 | the search comparator (higher score, then newer) is a strict order |
| AmenityRepository.Ranked | apps/api/src/infra/repositories/in-memory/in-memory-amenity.repository.ts:112-124 | exactly the matching amenities, best score first, then newest |
| AmenityRepository.Unscored | apps/api/src/infra/repositories/in-memory/in-memory-amenity.repository.ts:126 | the amenities of the ranked entries, in order |
| AmenityRepository.RankedFacts | apps/api/src/infra/repositories/in-memory/in-memory-amenity.repository.ts:111-126 | every ranked amenity is stored and matches, and no lower score comes first |
| AmenityRepository.PrefixByScore | apps/api/src/infra/repositories/in-memory/in-memory-amenity.repository.ts:138-140 | a prefix of a list in score order is in score order |
| AmenityRepository.Search | apps/api/src/infra/repositories/in-memory/in-memory-amenity.repository.ts:104-151 | every amenity returned is stored, matches and lies after the cursor, and the page is in non-increasing score order |
| AmenityRepository.SearchSkipsNewerLowerScoredMatch | apps/api/src/infra/repositories/in-memory/in-memory-amenity.repository.ts:119-144 | two matches, one per page: the first page's cursor is the better-scored older one's creation time, so the newer worse-scored match never appears |
| AmenityRepository.AfterIsRanksBefore | apps/api/src/infra/repositories/in-memory/in-memory-amenity.repository.ts:119-135 | in the corrected search, being after a match's cursor means ranking below that match |
| AmenityRepository.RanksBeforeByIdIsStrictOrder | apps/api/src/infra/repositories/in-memory/in-memory-amenity.repository.ts:119-135 | the ranking with ids as the last tie-break is a strict order |
| AmenityRepository.RankedById | apps/api/src/infra/repositories/in-memory/in-memory-amenity.repository.ts:112-124 | exactly the matching amenities, in the ranking with the id tie-break |
| AmenityRepository.CorrectedSearchSkipsNothing | apps/api/src/infra/repositories/in-memory/in-memory-amenity.repository.ts:104-151 | with a cursor in the ranking's own order, every match is on the first page or after its cursor, never both |
| AmenityRepository.CutAtLast | apps/api/src/infra/repositories/in-memory/in-memory-amenity.repository.ts:138-144 | in the ranking, a match among the first n never comes after the n-th and any other one does |
| AmenityRepository.RankedTotal | apps/api/src/infra/repositories/in-memory/in-memory-amenity.repository.ts:119-124 | with ids identifying amenities, any two distinct ranked matches are ordered |
| AmenityRepository.CorrectedSearch | apps/api/src/infra/repositories/in-memory/in-memory-amenity.repository.ts:104-151 | every amenity returned is stored, matches and lies after the cursor in ranking order, and the page is in ranking order |
| ServiceRepository.List | apps/api/src/infra/repositories/in-memory/in-memory-service.repository.ts:30-67 | only stored services of the specialty, when one is given, lying after the cursor, newest first |
| ServiceRepository.ListWithoutSpecialty | apps/api/src/infra/repositories/in-memory/in-memory-service.repository.ts:37-40 | without a specialty the listing is the plain catalogue listing |
| ServiceRepository.Search | apps/api/src/infra/repositories/in-memory/in-memory-service.repository.ts:69-111 | only stored services whose name or description holds the query ignoring case, of the specialty when given, after the cursor, newest first |
| ServiceRepository.SearchEmptyIsList | apps/api/src/infra/repositories/in-memory/in-memory-service.repository.ts:69-111 | searching for the empty query is listing |
| ServiceRepository.ListBySpecialtyId | apps/api/src/infra/repositories/in-memory/in-memory-service.repository.ts:132-136 | exactly the stored services of the specialty, in stored order |
| ServiceRepository.ListAgreesWithListBySpecialtyId | apps/api/src/infra/repositories/in-memory/in-memory-service.repository.ts:30-136 | with room for everything, the narrowed first page and the specialty's services are the same records |
| SpecialtyRepository.Search | apps/api/src/infra/repositories/in-memory/in-memory-specialty.repository.ts:68-107 | only stored specialties whose name or description holds the query ignoring case, after the cursor, newest first |
| SpecialtyRepository.SearchComplete | apps/api/src/infra/repositories/in-memory/in-memory-specialty.repository.ts:68-107 | with room for everything, the first page holds exactly the matching specialties |
| SpecialtyRepository.SearchEmptyIsList | apps/api/src/infra/repositories/in-memory/in-memory-specialty.repository.ts:33-107 | searching for the empty query is listing |
| FuzzySearch.NormalizeText | apps/api/src/application/utils/fuzzy-search.util.ts:13-19 | never longer than the input, and holds only lower-case letters, digits and white space |
| FuzzySearch.NormalizeIdempotent | apps/api/src/application/utils/fuzzy-search.util.ts:13-19 | normalising twice is normalising once |
| FuzzySearch.KeptFixed | apps/api/src/application/utils/fuzzy-search.util.ts:13-19 | a text of lower-case letters, digits and white space is already normal |
| FuzzySearch.NormalizeFoldsAccents | apps/api/src/application/utils/fuzzy-search.util.ts:13-17 | an accented letter folds to its base letter ("Café" to "cafe") |
| FuzzySearch.NormalizeDropsPunctuation | apps/api/src/application/utils/fuzzy-search.util.ts:14-18 | upper case folds and punctuation goes ("ÁGUA!" to "agua") |
| FuzzySearch.Min3 | apps/api/src/application/utils/fuzzy-search.util.ts:42-46 | the least of the three candidates |
| FuzzySearch.LevIdentity | apps/api/src/application/utils/fuzzy-search.util.ts:25-51 | a string is at distance 0 from itself and at its length from the empty string |
| FuzzySearch.LevBounds | apps/api/src/application/utils/fuzzy-search.util.ts:25-51 | the distance lies between the difference of the lengths and the longer length |
| FuzzySearch.LevSymmetric | apps/api/src/application/utils/fuzzy-search.util.ts:25-51 | the distance does not depend on the order of the strings |
| FuzzySearch.LevenshteinDistance | apps/api/src/application/utils/fuzzy-search.util.ts:25-51 | the matrix fill returns the recursive edit distance |
| FuzzySearch.FillRow | apps/api/src/application/utils/fuzzy-search.util.ts:40-47 | one more row of the matrix holds the edit distances of the prefixes |
| FuzzySearch.FillCell | apps/api/src/application/utils/fuzzy-search.util.ts:41-46 | one more cell of the row holds the edit distance of its prefixes |
| FuzzySearch.CellValue | apps/api/src/application/utils/fuzzy-search.util.ts:41-46 | the minimum of deletion, insertion and substitution costs is the edit distance of the prefixes |
| FuzzySearch.SimilarityRatio | apps/api/src/application/utils/fuzzy-search.util.ts:57-64 | 1 for equal strings, 0 when exactly one is empty, and always within [0, 1] |
| FuzzySearch.RatioInUnit | apps/api/src/application/utils/fuzzy-search.util.ts:61-63 | one minus a distance over a larger length lies in [0, 1] |
| FuzzySearch.FuzzySearchMatch | apps/api/src/application/utils/fuzzy-search.util.ts:123-140 | matches iff the score reaches 0.6; the score is the better of the name score and 0.8 times the description score, or 0 |
| Phone.Clean | apps/api/src/domain/value-objects/phone.value-object.ts:68 | keeps only digits and '+', never lengthening the input |
| Phone.CleanKeeps | apps/api/src/domain/value-objects/phone.value-object.ts:68 | a string of digits and '+' is left as it is |
| Phone.Parse | apps/api/src/domain/value-objects/phone.value-object.ts:62-99 | a success has country code "+55", a two-digit area code and an 8- or 9-digit number; a bare 8- or 9-digit number fails with the area-code error; every other failure is the invalid-number error |
| Phone.ParseAccepts | apps/api/src/domain/value-objects/phone.value-object.ts:74-84 | ten or eleven digits, with or without "+55" in front, parse into their first two digits and the rest |
| Phone.MakePhone | apps/api/src/domain/value-objects/phone.value-object.ts:34-52 | a raw input succeeds iff it parses; parts are taken as given; the WhatsApp and verified flags default to false |
| Phone.Formatted | apps/api/src/domain/value-objects/phone.value-object.ts:123-129 | "(DD) NNNNN-NNNN" for nine digits and "(DD) NNNN-NNNN" for eight |
| Phone.FullNumberRoundTrip | apps/api/src/domain/value-objects/phone.value-object.ts:68-120 | parsing the full number of a parsed phone gives back its area code and number |
| Phone.RemoveSpaces | apps/api/src/domain/value-objects/phone.value-object.ts:68-120 | cleaning the full number drops its two spaces |
| Phone.CleanSkipsSpace | apps/api/src/domain/value-objects/phone.value-object.ts:68 | a space between two strings is dropped by cleaning |
| Phone.CleanAppend | apps/api/src/domain/value-objects/phone.value-object.ts:68 | cleaning a concatenation is concatenating the cleaned parts |
| SeedIds.PrefixText | apps/api/src/domain/constants/seed-ids.ts:18 | every prefix is four characters |
| SeedIds.GenerateSeedId | apps/api/src/domain/constants/seed-ids.ts:23-25 | the id is the prefix, an underscore and the code, so the code can be read back after the fifth character |
| SeedIds.GenerateSeedIdInjective | apps/api/src/domain/constants/seed-ids.ts:23-25 | different prefixes or codes never give the same id |
| SeedIds.IdsOf | apps/api/src/domain/constants/seed-ids.ts:46-225 | each id table holds, position by position, the generated id of the matching code |
| SeedIds.GetSpecialtyIdByCode | apps/api/src/domain/constants/seed-ids.ts:272-274 | the id under the "spec" prefix, found in the specialty table for a listed code |
| SeedIds.GetServiceIdByCode | apps/api/src/domain/constants/seed-ids.ts:279-281 | the id under the "serv" prefix, found in the service table for a listed code |
| SeedIds.GetAmenityIdByCode | apps/api/src/domain/constants/seed-ids.ts:286-288 | the id under the "amen" prefix, found in the amenity table for a listed code |
| SeedIds.CodeInTable | apps/api/src/domain/constants/seed-ids.ts:161-225 | a listed code's generated id is in its table |
| SeedIds.InTableIff | apps/api/src/domain/constants/seed-ids.ts:161-225 | a table built from codes holds exactly the ids with its prefix whose rest is one of the codes |
| SeedIds.InTable | apps/api/src/domain/constants/seed-ids.ts:31-225 | an id is in a table iff it has the table's prefix and its rest is a listed code |
| SeedIds.IsSeedIdIff | apps/api/src/domain/constants/seed-ids.ts:293-300 | an id is a seed id iff, under some prefix, its rest is one of that prefix's codes |
| SeedIds.SeedIdUnderPrefix | apps/api/src/domain/constants/seed-ids.ts:293-300 | an id with a given prefix is a seed id iff its rest is one of that prefix's codes |
| SeedIds.PrefixesDiffer | apps/api/src/domain/constants/seed-ids.ts:18-25 | no id carries two different prefixes |
| SeedIds.IsSeedId | apps/api/src/domain/constants/seed-ids.ts:293-300 | a seed id iff it is in the specialty, service or amenity id table |
| ErrorInterceptor.GetErrorType | apps/frontend/src/lib/api/interceptors/error-interceptor.ts:50-82 | network wins, then timeout, then the status: 400/422 validation, 401/403 auth, 404 not found, 409 conflict, 429 rate limit, 500/502/503/504 server, anything else unknown, each in both directions |
| ErrorInterceptor.ExtractErrorMessage | apps/frontend/src/lib/api/interceptors/error-interceptor.ts:87-111 | only an object body gives a message; a string message comes first, then a string error, then the first entry of errors: itself when a string, its message or msg when an object |
| ErrorInterceptor.Messages | apps/frontend/src/lib/api/interceptors/error-interceptor.ts:134 | each entry's message, in order |
| ErrorInterceptor.GroupedSpec | apps/frontend/src/lib/api/interceptors/error-interceptor.ts:128-141 | a field is present iff some object entry is filed under it, and it holds exactly those entries' messages in order |
| ErrorInterceptor.FiledUnderSnoc | apps/frontend/src/lib/api/interceptors/error-interceptor.ts:130-140 | one more entry adds itself to its own field's list only |
| ErrorInterceptor.MessagesSnoc | apps/frontend/src/lib/api/interceptors/error-interceptor.ts:139 | one more entry adds its message at the end |
| ErrorInterceptor.GroupByField | apps/frontend/src/lib/api/interceptors/error-interceptor.ts:129-141 | the loop builds the grouping of the entries by field |
| ErrorInterceptor.ValidationErrorsOf | apps/frontend/src/lib/api/interceptors/error-interceptor.ts:116-147 | only a body with errors gives a result; an errors object passes through as it is; a grouping is returned only when non-empty |
| ErrorInterceptor.ExtractValidationErrors | apps/frontend/src/lib/api/interceptors/error-interceptor.ts:116-147 | the method computes the validation details described above |
| ErrorInterceptor.TransformError | apps/frontend/src/lib/api/interceptors/error-interceptor.ts:152-165 | the kind, status and original error as classified; the server's message or else the kind's default; validation details only for validation errors |
| ErrorHandler.OrDefault | apps/frontend/src/utils/error-handler.ts:69-173 | `message || default`: a truthy server message is kept, anything else gives the default |
| ErrorHandler.HandleApiError | apps/frontend/src/utils/error-handler.ts:43-177 | a non-API error gives the connection error; otherwise the code and status of the response, the title of that status and code, issues only for 400, the fixed text for the fixed cases and otherwise the server message or the status's default |
| ErrorHandler.ShouldRedirectToLogin | apps/frontend/src/utils/error-handler.ts:182-191 | redirects exactly when the code is one of the four session-ending codes |
| ErrorHandler.ShouldAttemptTokenRefresh | apps/frontend/src/utils/error-handler.ts:196-200 | refreshes exactly on 401 with an invalid access token, and never when a redirect is due |
| ErrorHandler.SessionOutcomes | apps/frontend/src/utils/error-handler.ts:77-200 | a 401 with an invalid access token is titled as an expired session and refreshed; a missing refresh token leads to the login page |
| ErrorHandler.FormatValidationErrors | apps/frontend/src/utils/error-handler.ts:205-209 | no issues give an empty map |
| ErrorHandler.FormattedKeys | apps/frontend/src/utils/error-handler.ts:210-214 | a key is present iff some issue's path joins to it |
| ErrorHandler.FormattedLastWins | apps/frontend/src/utils/error-handler.ts:210-214 | a present key holds the message of the last issue whose joined path is that key |
| Professions.ServicesOf | apps/frontend/src/data/professions.ts:95-97 | exactly the catalogue's services that list the specialty, in catalogue order; none when no service lists it |
| Professions.SharedServiceUnderEach | apps/frontend/src/data/professions.ts:26-97 | a service that lists two specialties is found under each of them |
| Professions.GetServicesByEspecialidade | apps/frontend/src/data/professions.ts:95-97 | exactly the built-in services that list the specialty, in table order |
| Professions.GetServicesByProfession | apps/frontend/src/data/professions.ts:102 | exactly the built-in services that list the specialty |
| ClockTimes.TimePatternIsClockTime | apps/api/src/domain/entities/units/unit-availability-rule.entity.ts:76-77 | the time pattern accepts exactly the clock times 00:00 to 23:59 |
| ClockTimes.ClockMinutes | apps/api/src/application/utils/date.utils.ts:38-43 | a clock time names a minute of the day, from 0 to 1439 |
| ClockTimes.ClockOrder | apps/api/src/domain/entities/units/unit-availability-rule.entity.ts:83 | for clock times, string order is the order of the times of day, both ways |
| ClockTimes.At | apps/api/src/application/usecases/units/availability/get-unit-available-slots.usecase.ts:93-94 | the instant a clock time names on a day lies on that day, and its time of day reads back as the same clock time |
| ClockTimes.AtOrder | apps/api/src/domain/entities/units/unit-availability-rule.entity.ts:83 | clock times in string order name instants in the same order on any day, both ways |

## Left out

- React rendering, toasts, navigation, dialog and popover state: only the helpers and state updates behind them are modelled.
- The clock, ULID/UUID generators, `Math.random` and network requests are parameters of the operations that use them; their own behaviour is not part of this model.
- JavaScript `Date` in local time, time zones, locales and ISO-string parsing: instants are integers in UTC, and a date string that does not parse is not modelled.
- Floating point: money, discount values, similarity ratios and scores are integers or exact ratios; the word-scanning score of `fuzzyMatch` is a parameter of the search.
- Unicode: lower/upper case is mapped on ASCII letters only, and accent folding covers the Latin-1 letters, not full Unicode NFD.
- The lock map of the in-memory booking repository exists only for concurrency; `create` is a plain append.
- Prisma repositories, the data mappers (treated as the identity) and the dependency-injection factory.
- Entity getters are read from the record fields directly; `update_metadata` and the metadata fields of the availability rule are not modelled.
- `parse_webhook_event` of the payment gateway (`JSON.parse`) is not modelled; the signature check is.
- The Zod schemas of the controllers and forms; the `isValid` predicates of the form steps are written as plain predicates without contracts of their own.
- `getApiError` and `setupErrorInterceptor` of the error interceptor, including the development-mode logging; only the transformation of one error is modelled.
- The error codes are compared as strings equal to their names, since `auth.types.ts` is not part of this model.
- JSON numbers are integers, and an object key that is not a string is converted by a `keyOf` parameter standing for JavaScript's property-key conversion; keys that collide with `Object.prototype` properties are not modelled.
- `MAX_PAGINATION_LIMIT` is a parameter, and a cursor is modelled by the (created_at, id) pair it encodes; `encodeCursor`/`decodeCursor` are not part of this model, and a cursor that fails to decode is not modelled.
- The `handleEdit`, `handleReschedule` and bulk handlers of the agenda page only show a toast; `isAnyMutationLoading` and the `window.open` call of the WhatsApp handler are not modelled beyond the link they open.
- Sorting is modelled as a stable sort, as `Array.prototype.sort` is.
- AvailabilityService.GetAvailableSlots: requires the chosen plan's slot length to be positive when there is an interval to cut (`SlotLengthOk`); with a zero length the source's slot loop never ends.
- AvailabilityService.GetAvailableDays: requires the same of every day scanned, for the same reason.
- NewUnitWorkingHours.UpdateDayHours: requires the edited day to be present; the form only edits days it lists.
- NewUnitWorkingHours.WorkingHoursStep.CopyHoursToSelectedDays: requires a chosen source day to be present in the hours, which the form's day picker guarantees.
- AppointmentDetailSheet.CalculateDuration: stated only for times of the form "DD:DD", and the label is read back only when the end is not before the start; `NegativeDurationLabel` describes the other case.
- TimeGrid.SlotLabel gives "" for hours of three digits, which the grid (06:00 to 22:00) never reaches.
- Unit.UpdateUnit: the unit repository is taken to return a copy of the stored unit, so a failing step leaves the store as it was; a repository handing out the stored object itself would keep the changes made before the failure. The unit repository is not part of this model.
- Subscription.SubscriptionEntity.ExtendTrial: adds days as 24-hour periods, ignoring daylight-saving changes of local calendar days.
- Discount.DiscountEntity.Make: the source builds the entity and then validates it; the model refuses invalid fields before building, so no invalid discount exists.
- The network half of `fetchAddressByCep` is a parameter: only its input validation and its use of the answer are modelled.
- DateUtils.ParseDateTime: only times of the form "DD:DD" are modelled; the source also reads "9:30" or "09:30:15" through `split(':')` and `Number`, which the model treats as unparsable.
- StorageGateway: unavailable storage is not modelled; there the source's save, remove and clearAll return false, cleanupExpired returns 0 and the raw read gives null.
- StorageGateway.StorageGateway.Save: a `setItem` or `removeItem` that throws (a full quota) makes the source return false; the model's storage never refuses a write.
- StorageGateway.RawItemIn: an entry whose text parses to JSON that is not an item is the model's `NoExpiry`, and every read treats it as absent. That is right for a falsy value ("false", "0"), but a truthy one ("{}", "42") behaves differently in the gateway:
  - `get` returns `undefined`, not `null`;
  - `exists` (`get(key) !== null`) returns true;
  - `refreshTTL` saves the entry again with undefined data and returns true;
  - `getWithMetadata` returns an object with undefined data and expiry;
  - `getRemainingTime` returns NaN.
  In the model these give none or false. `OnboardingPersistenceService.Get`, `Exists`, `RefreshTtl`, `GetWithMetadata` and `GetRemainingTime` inherit the same difference. Modelling undefined data and NaN would need a value beside every stored `T`, so the model treats such entries as absent.
- Unit: an address is kept as its fields, and the logo and gallery URLs as plain strings; the validation of the address and URL value objects (`URLAddressVO`, which wraps the logo and every gallery URL) is not part of this model, so `UnitEntity.UpdateLogo` and `UnitEntity.UpdateGallery` accept any string.
- The concurrency of the token-refresh queue, the notification workers and the request/response interceptor chains.

## Findings

| source | as written | input that shows it | evidently intended | confidence | as-written member | corrected member |
|---|---|---|---|---|---|---|
| apps/api/src/infra/repositories/in-memory/in-memory-amenity.repository.ts:104-151 | search sorts matches by score, then newest first, but the next page starts after the cursor by (created_at, id) | amenities Sauna (created 1, score 0.9) and Spa (created 2, score 0.7), query "sa", limit 1: page 1 is Sauna, and page 2 keeps only matches created before Sauna, so Spa (created later) is never listed | the cursor follows the sort order (score, created_at, id), so every match is reached | not executed | AmenityRepository.SearchSkipsNewerLowerScoredMatch | AmenityRepository.CorrectedSearchSkipsNothing |
| apps/frontend/src/components/onboarding/OnboardingStepSpecialties.tsx:37-42 | the existence check compares the untrimmed search text, but `addCustomSpecialty` (lines 120-131) creates the specialty from the trimmed text | a specialty "Manicure" exists and the search text is "Manicure " | the check compares the trimmed text, so no duplicate is created | not executed | OnboardingSpecialties.TrailingSpaceDuplicatesSpecialty | OnboardingSpecialties.AddCustomSpecialty |
| apps/frontend/src/components/onboarding/OnboardingStepSpecialties.tsx:80-85 | the same for services: the check uses the untrimmed text, while `addCustomService` (lines 133-145) names the new service with the trimmed one | a service "Escova" is offered and the search text is "Escova " | the check compares the trimmed text | not executed | OnboardingSpecialties.TrailingSpaceDuplicatesService | OnboardingSpecialties.AddCustomService |
| apps/frontend/src/features/dashboard/ui/UserMenu.tsx:17-24 | only the empty name falls back to "?"; a blank name trims to "", splits into one empty word and gives empty initials | the name "   " | a blank name falls back to "?" as the empty one does | not executed | UserMenu.BlankNameHasNoInitials | UserMenu.Initials |
