/** The in-memory stand-in for the payment provider: maps from id to checkout session,
    provider subscription and provider invoice, updated by the gateway operations. Ids
    are built from the creation instant, which is a parameter like every other clock
    reading. */
module PaymentGateway {
  import opened Wrappers
  import Text
  import DateUtils

  /** A value stored in a metadata record. */
  datatype MetaValue = Str(s: string) | Num(n: int) | Undefined

  type Metadata = map<string, MetaValue>

  datatype GatewayError =
    | SubscriptionNotFound(id: string)
    | InvoiceNotFound(id: string)
    | CheckoutSessionNotFound(id: string)

  datatype CheckoutSession = CheckoutSession(id: string, checkoutUrl: string, expiresAt: int, metadata: Metadata)

  datatype ProviderSubscription = ProviderSubscription(
    id: string,
    status: string,
    currentPeriodStart: int,
    currentPeriodEnd: int,
    cancelAtPeriodEnd: bool,
    trialEnd: Option<int>,
    metadata: Option<Metadata>)

  datatype ProviderInvoice = ProviderInvoice(
    id: string, amount: int, status: string, paidAt: Option<int>, metadata: Option<Metadata>)

  datatype WebhookEvent =
    | CheckoutCompleted(checkoutSessionId: string, userId: MetaValue, planId: MetaValue, paymentMethodType: string)
    | InvoicePaid(invoiceId: string, amount: int, paidAt: int)

  function OptText(o: Option<string>): MetaValue {
    if o.Some? then Str(o.value) else Undefined
  }

  function OptNum(o: Option<int>): MetaValue {
    if o.Some? then Num(o.value) else Undefined
  }

  /** The session metadata: the user, plan, coupon and trial fields, overridden key by key
      by the caller's own metadata. */
  function SessionMetadata(userId: string, planId: string, couponCode: Option<string>, trialDays: Option<int>,
                           extra: Metadata): (m: Metadata)
    ensures forall k :: k in extra ==> k in m && m[k] == extra[k]
    ensures m.Keys == extra.Keys + {"user_id", "plan_id", "coupon_code", "trial_days"}
    ensures "user_id" !in extra ==> "user_id" in m && m["user_id"] == Str(userId)
    ensures "plan_id" !in extra ==> "plan_id" in m && m["plan_id"] == Str(planId)
  {
    map["user_id" := Str(userId), "plan_id" := Str(planId),
        "coupon_code" := OptText(couponCode), "trial_days" := OptNum(trialDays)] + extra
  }

  /** A new subscription is trialing when its trial ends in the future, else active. */
  function InitialStatus(trialEnd: Option<int>, now: int): (status: string)
    ensures status == "trialing" <==> trialEnd.Some? && trialEnd.value > now
    ensures status == "trialing" || status == "active"
  {
    if trialEnd.Some? && trialEnd.value > now then "trialing" else "active"
  }

  /** `update_subscription`: an absent parameter keeps the stored value. */
  function Updated(s: ProviderSubscription, cancelAtPeriodEnd: Option<bool>, metadata: Option<Metadata>): (u: ProviderSubscription)
    ensures u.cancelAtPeriodEnd == cancelAtPeriodEnd.GetOr(s.cancelAtPeriodEnd)
    ensures u.metadata == (if metadata.Some? then metadata else s.metadata)
    ensures u.(cancelAtPeriodEnd := s.cancelAtPeriodEnd, metadata := s.metadata) == s
  {
    s.(cancelAtPeriodEnd := cancelAtPeriodEnd.GetOr(s.cancelAtPeriodEnd),
       metadata := if metadata.Some? then metadata else s.metadata)
  }

  /** `cancel_subscription`: cancelling at period end only raises the flag; otherwise the
      subscription is canceled now. */
  function Canceled(s: ProviderSubscription, atPeriodEnd: bool): (c: ProviderSubscription)
    ensures c.cancelAtPeriodEnd == atPeriodEnd
    ensures c.status == (if atPeriodEnd then s.status else "canceled")
    ensures c.(status := s.status, cancelAtPeriodEnd := s.cancelAtPeriodEnd) == s
  {
    s.(status := if atPeriodEnd then s.status else "canceled", cancelAtPeriodEnd := atPeriodEnd)
  }

  function Reactivated(s: ProviderSubscription): (a: ProviderSubscription)
    ensures a.status == "active" && !a.cancelAtPeriodEnd
    ensures a.(status := s.status, cancelAtPeriodEnd := s.cancelAtPeriodEnd) == s
  {
    s.(status := "active", cancelAtPeriodEnd := false)
  }

  /** Reactivation undoes either kind of cancellation: only the status and the flag
      differ from the subscription before it was canceled, and an active one comes back
      exactly as it was. */
  lemma ReactivateUndoesCancel(s: ProviderSubscription, atPeriodEnd: bool)
    ensures Reactivated(Canceled(s, atPeriodEnd)) == Reactivated(s)
    ensures s.status == "active" && !s.cancelAtPeriodEnd ==> Reactivated(Canceled(s, atPeriodEnd)) == s
  {
  }

  /** Updating with no parameters changes nothing, and updating twice keeps the later values. */
  lemma UpdateLaws(s: ProviderSubscription, c1: Option<bool>, m1: Option<Metadata>, c2: Option<bool>, m2: Option<Metadata>)
    ensures Updated(s, None, None) == s
    ensures Updated(Updated(s, c1, m1), c2, m2)
         == Updated(s, if c2.Some? then c2 else c1, if m2.Some? then m2 else m1)
  {
  }

  /** The webhook signature the fake provider accepts. */
  function VerifyWebhookSignature(payload: string, signature: string): (ok: bool)
    ensures ok <==> signature == "fake_signature"
  {
    signature == "fake_signature"
  }

  class FakePaymentGateway {
    var subscriptions: map<string, ProviderSubscription>
    var invoices: map<string, ProviderInvoice>
    var checkoutSessions: map<string, CheckoutSession>

    constructor ()
      ensures subscriptions == map[] && invoices == map[] && checkoutSessions == map[]
    {
      subscriptions := map[];
      invoices := map[];
      checkoutSessions := map[];
    }

    /** Stores a session that expires an hour from now, under an id made from now. */
    method CreateCheckoutSession(userId: string, planId: string, couponCode: Option<string>,
                                 trialDays: Option<int>, extra: Metadata, now: int)
      returns (session: CheckoutSession)
      modifies this
      ensures session.id == "fake_checkout_" + Text.IntToString(now)
      ensures session.checkoutUrl == "https://fake-gateway.com/checkout/" + session.id
      ensures session.expiresAt == now + DateUtils.MsPerHour
      ensures session.metadata == SessionMetadata(userId, planId, couponCode, trialDays, extra)
      ensures checkoutSessions == old(checkoutSessions)[session.id := session]
      ensures subscriptions == old(subscriptions) && invoices == old(invoices)
    {
      var id := "fake_checkout_" + Text.IntToString(now);
      session := CheckoutSession(id, "https://fake-gateway.com/checkout/" + id, now + DateUtils.MsPerHour,
                                 SessionMetadata(userId, planId, couponCode, trialDays, extra));
      checkoutSessions := checkoutSessions[id := session];
    }

    /** Stores a subscription starting now and ending at `periodEnd` (one calendar month
        later), trialing iff the trial ends in the future, not set to cancel. */
    method CreateSubscription(trialEnd: Option<int>, metadata: Option<Metadata>, now: int, periodEnd: int)
      returns (sub: ProviderSubscription)
      modifies this
      ensures sub == ProviderSubscription("fake_sub_" + Text.IntToString(now), InitialStatus(trialEnd, now),
                                          now, periodEnd, false, trialEnd, metadata)
      ensures subscriptions == old(subscriptions)[sub.id := sub]
      ensures invoices == old(invoices) && checkoutSessions == old(checkoutSessions)
    {
      var id := "fake_sub_" + Text.IntToString(now);
      sub := ProviderSubscription(id, InitialStatus(trialEnd, now), now, periodEnd, false, trialEnd, metadata);
      subscriptions := subscriptions[id := sub];
    }

    method UpdateSubscription(id: string, cancelAtPeriodEnd: Option<bool>, metadata: Option<Metadata>)
      returns (r: Result<ProviderSubscription, GatewayError>)
      modifies this
      ensures id !in old(subscriptions) ==> r == Failure(SubscriptionNotFound(id)) && subscriptions == old(subscriptions)
      ensures id in old(subscriptions) ==>
                r == Success(Updated(old(subscriptions)[id], cancelAtPeriodEnd, metadata))
                && subscriptions == old(subscriptions)[id := r.value]
      ensures invoices == old(invoices) && checkoutSessions == old(checkoutSessions)
    {
      if id !in subscriptions {
        return Failure(SubscriptionNotFound(id));
      }
      var updated := Updated(subscriptions[id], cancelAtPeriodEnd, metadata);
      subscriptions := subscriptions[id := updated];
      r := Success(updated);
    }

    method CancelSubscription(id: string, atPeriodEnd: bool) returns (r: Result<ProviderSubscription, GatewayError>)
      modifies this
      ensures id !in old(subscriptions) ==> r == Failure(SubscriptionNotFound(id)) && subscriptions == old(subscriptions)
      ensures id in old(subscriptions) ==>
                r == Success(Canceled(old(subscriptions)[id], atPeriodEnd))
                && subscriptions == old(subscriptions)[id := r.value]
      ensures invoices == old(invoices) && checkoutSessions == old(checkoutSessions)
    {
      if id !in subscriptions {
        return Failure(SubscriptionNotFound(id));
      }
      var updated := Canceled(subscriptions[id], atPeriodEnd);
      subscriptions := subscriptions[id := updated];
      r := Success(updated);
    }

    method ReactivateSubscription(id: string) returns (r: Result<ProviderSubscription, GatewayError>)
      modifies this
      ensures id !in old(subscriptions) ==> r == Failure(SubscriptionNotFound(id)) && subscriptions == old(subscriptions)
      ensures id in old(subscriptions) ==>
                r == Success(Reactivated(old(subscriptions)[id]))
                && subscriptions == old(subscriptions)[id := r.value]
      ensures invoices == old(invoices) && checkoutSessions == old(checkoutSessions)
    {
      if id !in subscriptions {
        return Failure(SubscriptionNotFound(id));
      }
      var updated := Reactivated(subscriptions[id]);
      subscriptions := subscriptions[id := updated];
      r := Success(updated);
    }

    /** Stores an open invoice for the amount under an id made from now. */
    method CreateInvoice(amount: int, metadata: Option<Metadata>, now: int) returns (inv: ProviderInvoice)
      modifies this
      ensures inv == ProviderInvoice("fake_inv_" + Text.IntToString(now), amount, "open", None, metadata)
      ensures invoices == old(invoices)[inv.id := inv]
      ensures subscriptions == old(subscriptions) && checkoutSessions == old(checkoutSessions)
    {
      var id := "fake_inv_" + Text.IntToString(now);
      inv := ProviderInvoice(id, amount, "open", None, metadata);
      invoices := invoices[id := inv];
    }

    /** The completion event of a stored session, carrying its user and plan metadata. */
    function SimulateCheckoutCompleted(sessionId: string): (r: Result<WebhookEvent, GatewayError>)
      reads this
      ensures sessionId !in checkoutSessions <==> r == Failure(CheckoutSessionNotFound(sessionId))
      ensures r.Success? ==> r.value.CheckoutCompleted? && r.value.checkoutSessionId == sessionId
                             && r.value.paymentMethodType == "credit_card"
    {
      if sessionId !in checkoutSessions then Failure(CheckoutSessionNotFound(sessionId))
      else
        var m := checkoutSessions[sessionId].metadata;
        Success(CheckoutCompleted(sessionId,
                                  if "user_id" in m then m["user_id"] else Undefined,
                                  if "plan_id" in m then m["plan_id"] else Undefined,
                                  "credit_card"))
    }

    /** Marks only that invoice paid at now and reports it. */
    method SimulateInvoicePaid(invoiceId: string, now: int) returns (r: Result<WebhookEvent, GatewayError>)
      modifies this
      ensures invoiceId !in old(invoices) ==> r == Failure(InvoiceNotFound(invoiceId)) && invoices == old(invoices)
      ensures invoiceId in old(invoices) ==>
                invoices == old(invoices)[invoiceId := old(invoices)[invoiceId].(status := "paid", paidAt := Some(now))]
                && r == Success(InvoicePaid(invoiceId, old(invoices)[invoiceId].amount, now))
      ensures subscriptions == old(subscriptions) && checkoutSessions == old(checkoutSessions)
    {
      if invoiceId !in invoices {
        return Failure(InvoiceNotFound(invoiceId));
      }
      var invoice := invoices[invoiceId];
      invoices := invoices[invoiceId := invoice.(status := "paid", paidAt := Some(now))];
      r := Success(InvoicePaid(invoiceId, invoice.amount, now));
    }
  }

  /** A session made by the gateway reports the caller's user and plan on completion,
      unless the caller's metadata overrides those keys. */
  lemma CheckoutReportsUserAndPlan(g: FakePaymentGateway, id: string, userId: string, planId: string,
                                   couponCode: Option<string>, trialDays: Option<int>, extra: Metadata)
    requires id in g.checkoutSessions
    requires g.checkoutSessions[id].metadata == SessionMetadata(userId, planId, couponCode, trialDays, extra)
    requires "user_id" !in extra && "plan_id" !in extra
    ensures g.SimulateCheckoutCompleted(id) == Success(CheckoutCompleted(id, Str(userId), Str(planId), "credit_card"))
  {
  }
}
