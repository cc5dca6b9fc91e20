/** A unit's billing subscription and its life cycle: activation, cancellation now or at
    the end of the period, reactivation while the paid period lasts, period and trial
    changes. Instants are milliseconds; `now` is a parameter. */
module Subscription {
  import opened Wrappers
  import DateUtils

  datatype SubscriptionStatus =
    | Incomplete | IncompleteExpired | Trialing | Active | PastDue | Unpaid | Canceled | Expired

  datatype SubscriptionError =
    | AlreadyActive
    | AlreadyCanceled
    | CannotBeReactivated
    | InvalidPeriod
    | NegativeTrialExtension

  datatype SubscriptionProps = SubscriptionProps(
    unitId: string,
    userId: string,
    planId: string,
    status: SubscriptionStatus,
    startDate: int,
    currentPeriodStart: int,
    currentPeriodEnd: int,
    cancelAtPeriodEnd: bool,
    canceledAt: Option<int>,
    trialEnd: Option<int>,
    renewalInterval: string,
    discountId: Option<string>,
    providerSubscriptionId: Option<string>)

  class SubscriptionEntity {
    var props: SubscriptionProps
    /** When the subscription was last changed (`touch`). */
    var updatedAt: int

    /** A new subscription is incomplete and not set to cancel unless told otherwise. */
    constructor (unitId: string, userId: string, planId: string, status: Option<SubscriptionStatus>,
                 startDate: int, currentPeriodStart: int, currentPeriodEnd: int,
                 cancelAtPeriodEnd: Option<bool>, canceledAt: Option<int>, trialEnd: Option<int>,
                 renewalInterval: string, discountId: Option<string>,
                 providerSubscriptionId: Option<string>, now: int)
      ensures props == SubscriptionProps(unitId, userId, planId, status.GetOr(Incomplete), startDate,
                                         currentPeriodStart, currentPeriodEnd, cancelAtPeriodEnd.GetOr(false),
                                         canceledAt, trialEnd, renewalInterval, discountId,
                                         providerSubscriptionId)
      ensures updatedAt == now
    {
      props := SubscriptionProps(unitId, userId, planId, status.GetOr(Incomplete), startDate,
                                 currentPeriodStart, currentPeriodEnd, cancelAtPeriodEnd.GetOr(false),
                                 canceledAt, trialEnd, renewalInterval, discountId, providerSubscriptionId);
      updatedAt := now;
    }

    /** Rejects an active subscription; otherwise active, with both cancellation marks cleared. */
    method Activate(now: int) returns (r: Outcome<SubscriptionError>)
      modifies this
      ensures r.Fail? <==> old(props).status == Active
      ensures r.Fail? ==> r.error == AlreadyActive && props == old(props) && updatedAt == old(updatedAt)
      ensures r.Pass? ==> props == old(props).(status := Active, cancelAtPeriodEnd := false, canceledAt := None)
                          && updatedAt == now
    {
      if props.status == Active {
        return Fail(AlreadyActive);
      }
      props := props.(status := Active, cancelAtPeriodEnd := false, canceledAt := None);
      updatedAt := now;
      r := Pass;
    }

    /** Rejects a canceled or expired subscription. An immediate cancel ends it now; otherwise
        it is only marked to end with the period and keeps its status. */
    method Cancel(immediate: bool, now: int) returns (r: Outcome<SubscriptionError>)
      modifies this
      ensures r.Fail? <==> old(props).status == Canceled || old(props).status == Expired
      ensures r.Fail? ==> r.error == AlreadyCanceled && props == old(props) && updatedAt == old(updatedAt)
      ensures r.Pass? && immediate ==> props == old(props).(status := Canceled, canceledAt := Some(now))
      ensures r.Pass? && !immediate ==> props == old(props).(cancelAtPeriodEnd := true)
      ensures r.Pass? ==> updatedAt == now
    {
      if props.status == Canceled || props.status == Expired {
        return Fail(AlreadyCanceled);
      }
      if immediate {
        props := props.(status := Canceled, canceledAt := Some(now));
      } else {
        props := props.(cancelAtPeriodEnd := true);
      }
      updatedAt := now;
      r := Pass;
    }

    /** Canceled, with the paid period still running; such a subscription is not active,
        so activation would accept it too. */
    function CanBeReactivated(now: int): (b: bool)
      reads this
      ensures b ==> props.status == Canceled && now < props.currentPeriodEnd
      ensures b ==> !IsActive()
    {
      props.status == Canceled && props.currentPeriodEnd > now
    }

    /** Only a reactivatable subscription comes back, active and with no cancellation marks. */
    method Reactivate(now: int) returns (r: Outcome<SubscriptionError>)
      modifies this
      ensures r.Pass? <==> old(props).status == Canceled && old(props).currentPeriodEnd > now
      ensures r.Fail? ==> r.error == CannotBeReactivated && props == old(props) && updatedAt == old(updatedAt)
      ensures r.Pass? ==> props == old(props).(status := Active, cancelAtPeriodEnd := false, canceledAt := None)
                          && updatedAt == now
    {
      if !CanBeReactivated(now) {
        return Fail(CannotBeReactivated);
      }
      props := props.(status := Active, cancelAtPeriodEnd := false, canceledAt := None);
      updatedAt := now;
      r := Pass;
    }

    /** `mark_as_past_due`, `mark_as_unpaid`, `mark_as_expired`, `mark_as_trialing` and
        `update_status`: the status is set unconditionally. */
    method UpdateStatus(status: SubscriptionStatus, now: int)
      modifies this
      ensures props == old(props).(status := status) && updatedAt == now
    {
      props := props.(status := status);
      updatedAt := now;
    }

    /** Rejects a period that does not start strictly before it ends, changing nothing. */
    method UpdatePeriod(start: int, end: int, now: int) returns (r: Outcome<SubscriptionError>)
      modifies this
      ensures r.Fail? <==> start >= end
      ensures r.Fail? ==> r.error == InvalidPeriod && props == old(props) && updatedAt == old(updatedAt)
      ensures r.Pass? ==> props == old(props).(currentPeriodStart := start, currentPeriodEnd := end)
                          && updatedAt == now
    {
      if start >= end {
        return Fail(InvalidPeriod);
      }
      props := props.(currentPeriodStart := start, currentPeriodEnd := end);
      updatedAt := now;
      r := Pass;
    }

    method ApplyDiscount(discountId: string, now: int)
      modifies this
      ensures props == old(props).(discountId := Some(discountId)) && updatedAt == now
    {
      props := props.(discountId := Some(discountId));
      updatedAt := now;
    }

    method RemoveDiscount(now: int)
      modifies this
      ensures props == old(props).(discountId := None) && updatedAt == now
    {
      props := props.(discountId := None);
      updatedAt := now;
    }

    /** Rejects negative days; otherwise the trial ends `days` days after its current end,
        or after now when there is no trial. */
    method ExtendTrial(days: int, now: int) returns (r: Outcome<SubscriptionError>)
      modifies this
      ensures r.Fail? <==> days < 0
      ensures r.Fail? ==> r.error == NegativeTrialExtension && props == old(props) && updatedAt == old(updatedAt)
      ensures r.Pass? ==> props == old(props).(trialEnd := Some(old(props).trialEnd.GetOr(now) + days * DateUtils.MsPerDay))
                          && updatedAt == now
    {
      if days < 0 {
        return Fail(NegativeTrialExtension);
      }
      var currentTrialEnd := props.trialEnd.GetOr(now);
      props := props.(trialEnd := Some(currentTrialEnd + days * DateUtils.MsPerDay));
      updatedAt := now;
      r := Pass;
    }

    method UpdateProviderSubscriptionId(providerId: string, now: int)
      modifies this
      ensures props == old(props).(providerSubscriptionId := Some(providerId)) && updatedAt == now
    {
      props := props.(providerSubscriptionId := Some(providerId));
      updatedAt := now;
    }

    method UpdatePlan(planId: string, now: int)
      modifies this
      ensures props == old(props).(planId := planId) && updatedAt == now
    {
      props := props.(planId := planId);
      updatedAt := now;
    }

    /** Active or in a trial. */
    function IsActive(): (b: bool)
      reads this
      ensures b <==> props.status in {Active, Trialing}
    {
      props.status == Active || props.status == Trialing
    }

    /** Feature access is exactly being active. */
    function CanAccessFeatures(): (b: bool)
      reads this
      ensures b == IsActive()
    {
      props.status == Active || props.status == Trialing
    }

    /** Trialing with a trial end still in the future; a subscription in its trial is
        active. */
    function IsInTrial(now: int): (b: bool)
      reads this
      ensures b <==> props.status == Trialing && props.trialEnd.Some? && now < props.trialEnd.value
      ensures b ==> IsActive()
    {
      if props.trialEnd.None? then false
      else props.status == Trialing && props.trialEnd.value > now
    }

    /** The lapsed states: none of them gives access to the features. */
    function HasExpired(): (b: bool)
      reads this
      ensures b ==> !CanAccessFeatures()
    {
      props.status == Expired
    }

    function IsPastDue(): (b: bool)
      reads this
      ensures b ==> !CanAccessFeatures()
    {
      props.status == PastDue
    }

    function IsUnpaid(): (b: bool)
      reads this
      ensures b ==> !CanAccessFeatures()
    {
      props.status == Unpaid
    }
  }
}
