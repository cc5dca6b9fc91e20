/** A billing discount: its validity rules, redemption counting against an optional
    maximum, expiry and assignment to one user. Instants are milliseconds; `now` is a
    parameter. Discount values are modelled as integers. */
module Discount {
  import opened Wrappers

  datatype DiscountType = Percentage | Fixed | FreePeriod
  datatype DiscountDuration = Once | Repeating | Forever

  datatype DiscountError =
    | PercentageAbove100
    | PercentageNegative
    | FixedNegative
    | FreePeriodNotPositive
    | RepeatingWithoutCount
    | NotActive
    | Expired
    | MaxRedemptionsReached
    | NotValidForUser

  datatype DiscountProps = DiscountProps(
    code: string,
    discountType: DiscountType,
    value: int,
    duration: DiscountDuration,
    repeatingCount: Option<int>,
    assignedToUserId: Option<string>,
    maxRedemptions: Option<int>,
    redemptionsCount: int,
    expiresAt: Option<int>,
    isActive: bool)

  /** The value fits the type and a repeating discount has a positive count. */
  predicate WellFormed(p: DiscountProps) {
    (p.discountType == Percentage ==> 0 <= p.value <= 100)
    && (p.discountType == Fixed ==> p.value >= 0)
    && (p.discountType == FreePeriod ==> p.value > 0)
    && (p.duration == Repeating ==> p.repeatingCount.Some? && p.repeatingCount.value > 0)
  }

  /** The construction check, reporting the first rule broken in a fixed order. */
  function ValidateDiscount(p: DiscountProps): (r: Outcome<DiscountError>)
    ensures r.Pass? <==> WellFormed(p)
    ensures p.discountType == Percentage && p.value > 100 ==> r == Fail(PercentageAbove100)
    ensures r == Fail(RepeatingWithoutCount) <==> WellFormed(p.(duration := Once)) && !WellFormed(p)
  {
    if p.discountType == Percentage && p.value > 100 then Fail(PercentageAbove100)
    else if p.discountType == Percentage && p.value < 0 then Fail(PercentageNegative)
    else if p.discountType == Fixed && p.value < 0 then Fail(FixedNegative)
    else if p.discountType == FreePeriod && p.value <= 0 then Fail(FreePeriodNotPositive)
    else if p.duration == Repeating && (p.repeatingCount.None? || p.repeatingCount.value <= 0) then
      Fail(RepeatingWithoutCount)
    else Pass
  }

  /** Expired once the expiry instant has passed; without one, never. */
  function IsExpired(p: DiscountProps, now: int): (b: bool)
    ensures p.expiresAt.None? ==> !b
    ensures p.expiresAt.Some? && now <= p.expiresAt.value ==> !b
  {
    p.expiresAt.Some? && p.expiresAt.value < now
  }

  /** Whether the maximum, when there is one, has been reached. */
  predicate MaxReached(p: DiscountProps) {
    p.maxRedemptions.Some? && p.redemptionsCount >= p.maxRedemptions.value
  }

  /** Active, not expired and below the maximum when there is one. */
  function CanBeRedeemed(p: DiscountProps, now: int): (b: bool)
    ensures b <==> p.isActive && !IsExpired(p, now)
                   && (p.maxRedemptions.None? || p.redemptionsCount < p.maxRedemptions.value)
  {
    if !p.isActive then false
    else if IsExpired(p, now) then false
    else if MaxReached(p) then false
    else true
  }

  /** An empty user id counts as no assignment. */
  predicate IsAssigned(p: DiscountProps) {
    p.assignedToUserId.Some? && p.assignedToUserId.value != ""
  }

  /** Redeemable, and unassigned or assigned to the user. */
  function IsValidForUser(p: DiscountProps, userId: string, now: int): (b: bool)
    ensures b <==> CanBeRedeemed(p, now) && (!IsAssigned(p) || p.assignedToUserId.value == userId)
  {
    if !p.isActive then false
    else if IsExpired(p, now) then false
    else if !CanBeRedeemed(p, now) then false
    else if IsAssigned(p) then p.assignedToUserId.value == userId
    else true
  }

  /** A discount assigned to a user is valid for nobody else, and one valid for some user
      is valid for every user it is assigned to or, unassigned, for all. */
  lemma ValidForUserSpec(p: DiscountProps, userId: string, other: string, now: int)
    ensures IsValidForUser(p, userId, now) && IsAssigned(p) && other != userId ==> !IsValidForUser(p, other, now)
    ensures IsValidForUser(p, userId, now) && !IsAssigned(p) ==> IsValidForUser(p, other, now)
  {
  }

  /** Fails exactly when the discount is not valid for the user, and names the wrong
      assignee before inactivity, expiry and the maximum. */
  function ValidateForUser(p: DiscountProps, userId: string, now: int): (r: Outcome<DiscountError>)
    ensures r.Pass? <==> IsValidForUser(p, userId, now)
    ensures r.Fail? && IsAssigned(p) && p.assignedToUserId.value != userId ==> r.error == NotValidForUser
    ensures r.Fail? && r.error != NotValidForUser ==> r == RedeemCheck(p, now)
  {
    if IsValidForUser(p, userId, now) then Pass
    else if IsAssigned(p) && p.assignedToUserId.value != userId then Fail(NotValidForUser)
    else if !p.isActive then Fail(NotActive)
    else if IsExpired(p, now) then Fail(Expired)
    else if !CanBeRedeemed(p, now) then Fail(MaxRedemptionsReached)
    else Pass
  }

  /** The checks `redeem` runs before counting, in order: inactive, expired, max reached. */
  function RedeemCheck(p: DiscountProps, now: int): (r: Outcome<DiscountError>)
    ensures r.Pass? <==> CanBeRedeemed(p, now)
    ensures !p.isActive ==> r == Fail(NotActive)
    ensures p.isActive && IsExpired(p, now) ==> r == Fail(Expired)
  {
    if !p.isActive then Fail(NotActive)
    else if IsExpired(p, now) then Fail(Expired)
    else if !CanBeRedeemed(p, now) then Fail(MaxRedemptionsReached)
    else Pass
  }

  /** Redeeming a redeemable discount never takes the count past the maximum. */
  lemma RedeemWithinMax(p: DiscountProps, now: int)
    requires CanBeRedeemed(p, now)
    ensures p.maxRedemptions.Some? ==> p.redemptionsCount + 1 <= p.maxRedemptions.value
    ensures !MaxReached(p.(redemptionsCount := p.redemptionsCount + 1)) <==>
              p.maxRedemptions.None? || p.redemptionsCount + 1 < p.maxRedemptions.value
  {
  }

  class DiscountEntity {
    var props: DiscountProps
    /** When the discount was last changed (`touch`). */
    var updatedAt: int

    predicate Valid()
      reads this
    {
      WellFormed(props)
    }

    constructor Make(p: DiscountProps, now: int)
      requires WellFormed(p)
      ensures props == p && updatedAt == now && Valid()
    {
      props := p;
      updatedAt := now;
    }

    /** Counts one redemption when the discount can be redeemed; otherwise reports why not
        and changes nothing. */
    method Redeem(now: int) returns (r: Outcome<DiscountError>)
      requires Valid()
      modifies this
      ensures Valid()
      ensures r == RedeemCheck(old(props), now)
      ensures r.Fail? ==> props == old(props) && updatedAt == old(updatedAt)
      ensures r.Pass? ==> props == old(props).(redemptionsCount := old(props).redemptionsCount + 1)
                          && updatedAt == now
    {
      r := RedeemCheck(props, now);
      if r.Fail? {
        return;
      }
      props := props.(redemptionsCount := props.redemptionsCount + 1);
      updatedAt := now;
    }

    method Deactivate(now: int)
      requires Valid()
      modifies this
      ensures Valid() && props == old(props).(isActive := false) && updatedAt == now
    {
      props := props.(isActive := false);
      updatedAt := now;
    }

    method Activate(now: int)
      requires Valid()
      modifies this
      ensures Valid() && props == old(props).(isActive := true) && updatedAt == now
    {
      props := props.(isActive := true);
      updatedAt := now;
    }

    method UpdateMaxRedemptions(max: int, now: int)
      requires Valid()
      modifies this
      ensures Valid() && props == old(props).(maxRedemptions := Some(max)) && updatedAt == now
    {
      props := props.(maxRedemptions := Some(max));
      updatedAt := now;
    }

    method UpdateExpiration(expiresAt: int, now: int)
      requires Valid()
      modifies this
      ensures Valid() && props == old(props).(expiresAt := Some(expiresAt)) && updatedAt == now
    {
      props := props.(expiresAt := Some(expiresAt));
      updatedAt := now;
    }
  }

  /** Creation: redemptions start at 0 and the discount is active unless told otherwise;
      a discount breaking a rule is not created. */
  method CreateDiscount(code: string, discountType: DiscountType, value: int, duration: DiscountDuration,
                        repeatingCount: Option<int>, assignedToUserId: Option<string>,
                        maxRedemptions: Option<int>, redemptionsCount: Option<int>,
                        expiresAt: Option<int>, isActive: Option<bool>, now: int)
    returns (r: Result<DiscountEntity, DiscountError>)
    ensures var p := DiscountProps(code, discountType, value, duration, repeatingCount, assignedToUserId,
                                   maxRedemptions, redemptionsCount.GetOr(0), expiresAt, isActive.GetOr(true));
            match ValidateDiscount(p)
            case Fail(e) => r == Failure(e)
            case Pass => r.Success? && fresh(r.value) && r.value.props == p && r.value.Valid()
  {
    var p := DiscountProps(code, discountType, value, duration, repeatingCount, assignedToUserId,
                           maxRedemptions, redemptionsCount.GetOr(0), expiresAt, isActive.GetOr(true));
    var check := ValidateDiscount(p);
    if check.Fail? {
      return Failure(check.error);
    }
    var d := new DiscountEntity.Make(p, now);
    r := Success(d);
  }
}
