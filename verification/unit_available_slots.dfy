/** A unit's free slots on a day: the same priority rule as a professional's availability
    (block, then override, then the rules for the date, then the weekly rules), but only
    active rules count and there are no bookings to subtract. Rules and exceptions come
    from their entities, so they always hold valid fields. */
module UnitAvailableSlots {
  import opened Wrappers
  import opened DateUtils
  import opened ClockTimes
  import opened UnitAvailabilityRule
  import opened UnitAvailabilityException
  import AvailabilityService
  import Seqs

  type Slot = AvailabilityService.Slot
  type Plan = AvailabilityService.Plan

  /** The repositories' answers: the unit's exception for a date, its rules for a date and
      its weekly rules for a weekday. */
  datatype UnitLookups = UnitLookups(
    exceptionOn: int -> Option<ExceptionProps>,
    specificOn: int -> seq<RuleProps>,
    weeklyOn: int -> seq<RuleProps>)

  predicate AllRulesOk(rules: seq<RuleProps>) {
    forall r :: r in rules ==> RuleFieldsOk(r)
  }

  /** What the entities guarantee about everything the lookups return for `date`. */
  predicate LookupsOk(lk: UnitLookups, date: int) {
    (lk.exceptionOn(date).Some? ==> PropsOk(lk.exceptionOn(date).value))
    && AllRulesOk(lk.specificOn(date))
    && AllRulesOk(lk.weeklyOn(AvailabilityService.Weekday(date)))
  }

  predicate IsActive(r: RuleProps) { r.isActive }

  /** `rules_to_intervals`: each rule's times placed on `date`. */
  function RulesToIntervals(rules: seq<RuleProps>, date: int): (r: seq<Interval>)
    requires AllRulesOk(rules)
    ensures |r| == |rules|
    ensures forall k :: 0 <= k < |r| ==>
              rules[k] in rules && r[k] == Interval(At(date, rules[k].startTime), At(date, rules[k].endTime))
    ensures forall iv :: iv in r ==> Proper(iv)
  {
    seq(|rules|, k requires 0 <= k < |rules| =>
      assert rules[k] in rules;
      ValidRuleInterval(rules[k], date);
      Interval(At(date, rules[k].startTime), At(date, rules[k].endTime)))
  }

  /** The plan a non-empty list of matching rules gives: its active rules' intervals, with
      the first active rule's slot length or 60. */
  function RulesPlan(rules: seq<RuleProps>, date: int): (p: Plan)
    requires AllRulesOk(rules)
    ensures p.slotMinutes > 0
    ensures forall iv :: iv in p.intervals ==> Proper(iv)
  {
    var active := Seqs.Filter(rules, IsActive);
    assert AllRulesOk(active);
    AvailabilityService.Plan(RulesToIntervals(active, date),
      if |active| > 0 then (assert active[0] in active; active[0].slotDurationMinutes)
      else AvailabilityService.DefaultSlotMinutes)
  }

  /** The priority rule of `execute`. */
  function UnitPlan(lk: UnitLookups, date: int): (p: Plan)
    requires LookupsOk(lk, date)
    ensures p.slotMinutes > 0
    ensures forall iv :: iv in p.intervals ==> Proper(iv)
  {
    var exception := lk.exceptionOn(date);
    if exception.Some? && exception.value.exceptionType == Block then
      AvailabilityService.Plan([], AvailabilityService.DefaultSlotMinutes)
    else if exception.Some? && exception.value.exceptionType == Override then
      var e := exception.value;
      if ReadString(e.startTime).Some? && ReadString(e.endTime).Some? && ReadNumber(e.slotDurationMinutes).Some? then
        ClockOrder(e.startTime, e.endTime);
        AvailabilityService.Plan([Interval(At(date, e.startTime), At(date, e.endTime))], e.slotDurationMinutes)
      else AvailabilityService.Plan([], AvailabilityService.DefaultSlotMinutes)
    else if |lk.specificOn(date)| > 0 then RulesPlan(lk.specificOn(date), date)
    else
      var weekly := lk.weeklyOn(AvailabilityService.Weekday(date));
      if |weekly| > 0 then RulesPlan(weekly, date)
      else AvailabilityService.Plan([], AvailabilityService.DefaultSlotMinutes)
  }

  /** `execute` as a value: the plan's intervals merged and cut into slots. */
  function UnitSlots(lk: UnitLookups, date: int): seq<Slot>
    requires LookupsOk(lk, date)
  {
    var p := UnitPlan(lk, date);
    if |p.intervals| == 0 then []
    else AvailabilityService.SlotsOf(MergeSorted(SortByStart(p.intervals)), p.slotMinutes)
  }

  /** `GetUnitAvailableSlotsUseCase.execute`. */
  method Execute(lk: UnitLookups, date: int) returns (slots: seq<Slot>)
    requires LookupsOk(lk, date)
    ensures slots == UnitSlots(lk, date)
  {
    var exception := lk.exceptionOn(date);
    if exception.Some? && exception.value.exceptionType == Block {
      return [];
    }
    var intervals: seq<Interval> := [];
    var slotDurationMinutes := AvailabilityService.DefaultSlotMinutes;
    if exception.Some? && exception.value.exceptionType == Override {
      var e := exception.value;
      var startTime, endTime, slotLength := ReadString(e.startTime), ReadString(e.endTime), ReadNumber(e.slotDurationMinutes);
      if startTime.Some? && endTime.Some? && slotLength.Some? {
        intervals := [Interval(At(date, startTime.value), At(date, endTime.value))];
        slotDurationMinutes := slotLength.value;
      }
    } else {
      var specificRules := lk.specificOn(date);
      if |specificRules| > 0 {
        var activeRules := Seqs.Filter(specificRules, IsActive);
        assert AllRulesOk(activeRules);
        intervals := RulesToIntervals(activeRules, date);
        slotDurationMinutes := if |activeRules| > 0 then activeRules[0].slotDurationMinutes
                               else AvailabilityService.DefaultSlotMinutes;
      } else {
        var weekday := AvailabilityService.Weekday(date);
        var weeklyRules := lk.weeklyOn(weekday);
        if |weeklyRules| > 0 {
          var activeRules := Seqs.Filter(weeklyRules, IsActive);
          assert AllRulesOk(activeRules);
          intervals := RulesToIntervals(activeRules, date);
          slotDurationMinutes := if |activeRules| > 0 then activeRules[0].slotDurationMinutes
                                 else AvailabilityService.DefaultSlotMinutes;
        }
      }
    }
    assert AvailabilityService.Plan(intervals, slotDurationMinutes) == UnitPlan(lk, date);
    if |intervals| == 0 {
      return [];
    }
    intervals := MergeIntervals(intervals);
    slots := AvailabilityService.GenerateSlots(intervals, slotDurationMinutes);
  }

  // ---------------------------------------------------------------------------
  // Properties

  /** A block exception leaves the unit without slots that day. */
  lemma BlockYieldsNothing(lk: UnitLookups, date: int)
    requires LookupsOk(lk, date)
    requires lk.exceptionOn(date).Some? && lk.exceptionOn(date).value.exceptionType == Block
    ensures UnitSlots(lk, date) == []
  {
  }

  /** Any rule for the date, even an inactive one, keeps the weekly rules out. */
  lemma SpecificRulesShadowWeekly(lk: UnitLookups, date: int, weekly: int -> seq<RuleProps>)
    requires LookupsOk(lk, date) && LookupsOk(lk.(weeklyOn := weekly), date)
    requires lk.exceptionOn(date).None? && |lk.specificOn(date)| > 0
    ensures UnitPlan(lk, date) == UnitPlan(lk.(weeklyOn := weekly), date)
    ensures UnitPlan(lk, date) == RulesPlan(lk.specificOn(date), date)
  {
  }

  /** The plan of a list of rules takes the active rules' intervals, in order, and the slot
      length of the first active rule, or 60 when there is none. */
  lemma RulesPlanSpec(rules: seq<RuleProps>, date: int)
    requires AllRulesOk(rules)
    ensures var p := RulesPlan(rules, date);
            var first := Seqs.Find(rules, IsActive);
            |p.intervals| == |Seqs.Filter(rules, IsActive)|
            && p.slotMinutes == (if first.Some? then first.value.slotDurationMinutes else AvailabilityService.DefaultSlotMinutes)
            && (first.None? <==> p.intervals == [])
  {
    Seqs.FilterHeadIsFind(rules, IsActive);
  }

  /** Inactive rules contribute nothing: adding one to the list changes no interval and
      no slot length. */
  lemma InactiveRuleIgnored(rules: seq<RuleProps>, r: RuleProps, date: int)
    requires AllRulesOk(rules) && RuleFieldsOk(r) && !r.isActive
    ensures RulesPlan(rules + [r], date) == RulesPlan(rules, date)
  {
    Seqs.FilterAppend(rules, [r], IsActive);
    assert Seqs.Filter([r], IsActive) == [];
    assert Seqs.Filter(rules + [r], IsActive) == Seqs.Filter(rules, IsActive);
  }

  /** When every rule of the chosen kind is inactive, there are no slots. */
  lemma AllInactiveYieldsNothing(lk: UnitLookups, date: int)
    requires LookupsOk(lk, date) && lk.exceptionOn(date).None?
    requires forall r :: r in lk.specificOn(date) ==> !r.isActive
    requires |lk.specificOn(date)| == 0 ==>
               forall r :: r in lk.weeklyOn(AvailabilityService.Weekday(date)) ==> !r.isActive
    ensures UnitSlots(lk, date) == []
  {
    RulesPlanSpec(lk.specificOn(date), date);
    RulesPlanSpec(lk.weeklyOn(AvailabilityService.Weekday(date)), date);
  }

  /** Every merged interval yields floor(length / slot length) slots, each exactly one slot
      length long, no two overlapping, and each bound a zero-padded "HH:MM". */
  lemma UnitSlotsShape(lk: UnitLookups, date: int)
    requires LookupsOk(lk, date)
    ensures var p := UnitPlan(lk, date);
            var merged := MergeSorted(SortByStart(p.intervals));
            var spans := AvailabilityService.SlotSpans(merged, p.slotMinutes * MsPerMinute);
            |p.intervals| > 0 ==>
              UnitSlots(lk, date) == AvailabilityService.ToSlots(spans)
              && |UnitSlots(lk, date)| == AvailabilityService.SlotCount(merged, p.slotMinutes * MsPerMinute)
              && AvailabilityService.Sequential(spans)
              && (forall sp :: sp in spans ==> sp.end - sp.start == p.slotMinutes * MsPerMinute)
    ensures forall k :: 0 <= k < |UnitSlots(lk, date)| ==>
              IsClockTime(UnitSlots(lk, date)[k].start) && IsClockTime(UnitSlots(lk, date)[k].end)
  {
    var p := UnitPlan(lk, date);
    if |p.intervals| > 0 {
      var d := p.slotMinutes * MsPerMinute;
      var sorted := SortByStart(p.intervals);
      var merged := MergeSorted(sorted);
      var spans := AvailabilityService.SlotSpans(merged, d);
      MergeSortedIsSorted(sorted);
      MergeIntervalsDisjoint(p.intervals);
      AvailabilityService.SlotSpansSequential(merged, d);
      AvailabilityService.SlotSpansCount(merged, d);
      AvailabilityService.SlotSpansWithin(merged, d);
      forall k | 0 <= k < |spans| ensures IsClockTime(UnitSlots(lk, date)[k].start) && IsClockTime(UnitSlots(lk, date)[k].end) {
        AvailabilityService.ToSlotsAt(spans, k);
      }
    }
  }
}
