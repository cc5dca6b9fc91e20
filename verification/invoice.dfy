/** A billing invoice: its status changes and its line items, whose sum is the invoice
    amount. Money is modelled as integers; instants are milliseconds. */
module Invoice {
  import opened Wrappers
  import Text
  import Seqs

  datatype InvoiceStatus = Open | Paid | Uncollectible | Void

  datatype InvoiceError =
    | AlreadyPaid
    | CannotBeModified
    | BlankDescription
    | NegativeAmount
    | NonPositiveQuantity
    | InvalidIndex

  datatype LineItem = LineItem(description: string, amount: int, quantity: int)

  datatype InvoiceProps = InvoiceProps(
    userId: string,
    subscriptionId: string,
    amount: int,
    currency: string,
    status: InvoiceStatus,
    lineItems: seq<LineItem>,
    dueDate: int,
    paidAt: Option<int>,
    providerInvoiceId: Option<string>)

  predicate ItemOk(item: LineItem) {
    Text.Trim(item.description) != "" && item.amount >= 0 && item.quantity > 0
  }

  predicate ItemsOk(items: seq<LineItem>) {
    forall k :: 0 <= k < |items| ==> ItemOk(items[k])
  }

  /** The line-item check: a non-blank description, then a non-negative amount, then a
      positive quantity. */
  function ValidateLineItem(item: LineItem): (r: Outcome<InvoiceError>)
    ensures r.Pass? <==> ItemOk(item)
    ensures r == Fail(BlankDescription) <==> Text.AllSpace(item.description)
  {
    Text.TrimEmptyIffAllSpace(item.description);
    if Text.Trim(item.description) == "" then Fail(BlankDescription)
    else if item.amount < 0 then Fail(NegativeAmount)
    else if item.quantity <= 0 then Fail(NonPositiveQuantity)
    else Pass
  }

  /** The first failing item's error, checking the items in order. */
  function ValidateLineItems(items: seq<LineItem>): (r: Outcome<InvoiceError>)
    ensures r.Pass? <==> ItemsOk(items)
  {
    if |items| == 0 then Pass
    else
      match ValidateLineItem(items[0])
      case Fail(e) => Fail(e)
      case Pass =>
        var rest := ValidateLineItems(items[1..]);
        assert forall k :: 1 <= k < |items| ==> items[k] == items[1..][k - 1];
        rest
  }

  function LineTotal(item: LineItem): int { item.amount * item.quantity }

  lemma LineTotalNonNegative(item: LineItem)
    requires item.amount >= 0 && item.quantity > 0
    ensures LineTotal(item) >= 0
  {
  }

  /** `calculate_total`: the running sum of amount times quantity, item by item; it is
      never negative when no item contributes a negative amount, as no valid item does. */
  function Total(items: seq<LineItem>): (r: int)
    ensures (forall k :: 0 <= k < |items| ==> LineTotal(items[k]) >= 0) ==> r >= 0
  {
    if |items| == 0 then 0
    else
      var init := items[..|items| - 1];
      assert (forall k :: 0 <= k < |items| ==> LineTotal(items[k]) >= 0) ==>
               (forall k :: 0 <= k < |init| ==> LineTotal(init[k]) >= 0) by {
        if forall k :: 0 <= k < |items| ==> LineTotal(items[k]) >= 0 {
          forall k | 0 <= k < |init| ensures LineTotal(init[k]) >= 0 {
            assert init[k] == items[k];
          }
        }
      }
      Total(init) + LineTotal(items[|items| - 1])
  }

  /** Valid items never sum to a negative total. */
  lemma TotalNonNegative(items: seq<LineItem>)
    requires ItemsOk(items)
    ensures Total(items) >= 0
  {
    forall k | 0 <= k < |items| ensures LineTotal(items[k]) >= 0 {
      assert ItemOk(items[k]);
      LineTotalNonNegative(items[k]);
    }
  }

  lemma TotalAppend(items: seq<LineItem>, item: LineItem)
    ensures Total(items + [item]) == Total(items) + LineTotal(item)
  {
    assert (items + [item])[..|items|] == items;
  }

  /** The total is a sum, so it splits over concatenation. */
  lemma {:induction false} TotalConcat(a: seq<LineItem>, b: seq<LineItem>)
    ensures Total(a + b) == Total(a) + Total(b)
    decreases |b|
  {
    if |b| == 0 {
      assert a + b == a;
    } else {
      var init := b[..|b| - 1];
      TotalConcat(a, init);
      assert a + b == (a + init) + [b[|b| - 1]];
      TotalAppend(a + init, b[|b| - 1]);
      TotalAppend(init, b[|b| - 1]);
      assert init + [b[|b| - 1]] == b;
    }
  }

  /** Removing item `i` takes exactly its amount times quantity off the total. */
  lemma TotalRemoveAt(items: seq<LineItem>, i: int)
    requires 0 <= i < |items|
    ensures Total(Seqs.RemoveAt(items, i)) == Total(items) - LineTotal(items[i])
  {
    var pre, x, post := items[..i], items[i], items[i + 1..];
    Seqs.SplitAt(items, i);
    TotalConcat(pre + [x], post);
    TotalAppend(pre, x);
    TotalConcat(pre, post);
  }

  lemma ItemsOkRemoveAt(items: seq<LineItem>, i: int)
    requires ItemsOk(items) && 0 <= i < |items|
    ensures ItemsOk(Seqs.RemoveAt(items, i))
  {
    var r := Seqs.RemoveAt(items, i);
    forall k | 0 <= k < |r| ensures ItemOk(r[k]) {
      if k < i { assert r[k] == items[k]; } else { assert r[k] == items[k + 1]; }
    }
  }

  lemma ItemsOkAppend(items: seq<LineItem>, item: LineItem)
    requires ItemsOk(items) && ItemOk(item)
    ensures ItemsOk(items + [item])
  {
    var r := items + [item];
    forall k | 0 <= k < |r| ensures ItemOk(r[k]) {
      if k < |items| { assert r[k] == items[k]; }
    }
  }

  class InvoiceEntity {
    var props: InvoiceProps
    /** When the invoice was last changed (`touch`). */
    var updatedAt: int

    predicate Valid()
      reads this
    {
      ItemsOk(props.lineItems)
    }

    constructor Make(p: InvoiceProps, now: int)
      requires ItemsOk(p.lineItems)
      ensures props == p && updatedAt == now && Valid()
    {
      props := p;
      updatedAt := now;
    }

    /** Rejects a paid or a void invoice; otherwise paid at `paidAt`. */
    method MarkAsPaid(paidAt: int, now: int) returns (r: Outcome<InvoiceError>)
      requires Valid()
      modifies this
      ensures Valid()
      ensures r.Fail? <==> old(props).status in {Paid, Void}
      ensures old(props).status == Paid ==> r == Fail(AlreadyPaid)
      ensures old(props).status == Void ==> r == Fail(CannotBeModified)
      ensures r.Fail? ==> props == old(props) && updatedAt == old(updatedAt)
      ensures r.Pass? ==> props == old(props).(status := Paid, paidAt := Some(paidAt)) && updatedAt == now
    {
      if props.status == Paid {
        return Fail(AlreadyPaid);
      }
      if props.status == Void {
        return Fail(CannotBeModified);
      }
      props := props.(status := Paid, paidAt := Some(paidAt));
      updatedAt := now;
      r := Pass;
    }

    /** Rejects a paid or a void invoice; otherwise uncollectible. */
    method MarkAsUncollectible(now: int) returns (r: Outcome<InvoiceError>)
      requires Valid()
      modifies this
      ensures Valid()
      ensures r.Fail? <==> old(props).status in {Paid, Void}
      ensures r.Fail? ==> r.error == CannotBeModified && props == old(props) && updatedAt == old(updatedAt)
      ensures r.Pass? ==> props == old(props).(status := Uncollectible) && updatedAt == now
    {
      if props.status == Paid || props.status == Void {
        return Fail(CannotBeModified);
      }
      props := props.(status := Uncollectible);
      updatedAt := now;
      r := Pass;
    }

    /** Rejects only a paid invoice; otherwise void. */
    method MarkAsVoid(now: int) returns (r: Outcome<InvoiceError>)
      requires Valid()
      modifies this
      ensures Valid()
      ensures r.Fail? <==> old(props).status == Paid
      ensures r.Fail? ==> r.error == CannotBeModified && props == old(props) && updatedAt == old(updatedAt)
      ensures r.Pass? ==> props == old(props).(status := Void) && updatedAt == now
    {
      if props.status == Paid {
        return Fail(CannotBeModified);
      }
      props := props.(status := Void);
      updatedAt := now;
      r := Pass;
    }

    method UpdateStatus(status: InvoiceStatus, now: int)
      requires Valid()
      modifies this
      ensures Valid() && props == old(props).(status := status) && updatedAt == now
    {
      props := props.(status := status);
      updatedAt := now;
    }

    method UpdateProviderInvoiceId(providerId: string, now: int)
      requires Valid()
      modifies this
      ensures Valid() && props == old(props).(providerInvoiceId := Some(providerId)) && updatedAt == now
    {
      props := props.(providerInvoiceId := Some(providerId));
      updatedAt := now;
    }

    /** Open and past its due date; an overdue invoice is not paid. */
    function IsOverdue(now: int): (b: bool)
      reads this
      ensures b ==> props.status == Open && props.dueDate < now
      ensures b ==> !IsPaid()
    {
      props.status == Open && props.dueDate < now
    }

    function IsPaid(): (b: bool)
      reads this
      ensures b <==> props.status == Paid
    {
      props.status == Paid
    }

    /** Only an open invoice takes a new item, and only a valid one; the amount becomes
        the new total. */
    method AddLineItem(item: LineItem, now: int) returns (r: Outcome<InvoiceError>)
      requires Valid()
      modifies this
      ensures Valid()
      ensures old(props).status != Open ==> r == Fail(CannotBeModified)
      ensures old(props).status == Open ==> r == ValidateLineItem(item)
      ensures r.Fail? ==> props == old(props) && updatedAt == old(updatedAt)
      ensures r.Pass? ==> props == old(props).(lineItems := old(props).lineItems + [item],
                                               amount := Total(old(props).lineItems) + LineTotal(item))
                          && props.amount == Total(props.lineItems)
                          && updatedAt == now
    {
      if props.status != Open {
        return Fail(CannotBeModified);
      }
      r := ValidateLineItem(item);
      if r.Fail? {
        return;
      }
      var items := props.lineItems + [item];
      ItemsOkAppend(props.lineItems, item);
      TotalAppend(props.lineItems, item);
      props := props.(lineItems := items, amount := Total(items));
      updatedAt := now;
    }

    /** Only an open invoice loses an item, and only at an existing index; the amount
        becomes the new total. */
    method RemoveLineItem(index: int, now: int) returns (r: Outcome<InvoiceError>)
      requires Valid()
      modifies this
      ensures Valid()
      ensures old(props).status != Open ==> r == Fail(CannotBeModified)
      ensures old(props).status == Open ==> (r.Fail? <==> index < 0 || index >= |old(props).lineItems|)
      ensures r.Fail? ==> props == old(props) && updatedAt == old(updatedAt)
      ensures r.Fail? && old(props).status == Open ==> r.error == InvalidIndex
      ensures r.Pass? ==> 0 <= index < |old(props).lineItems|
                          && props == old(props).(lineItems := Seqs.RemoveAt(old(props).lineItems, index),
                                                  amount := Total(props.lineItems))
                          && updatedAt == now
    {
      if props.status != Open {
        return Fail(CannotBeModified);
      }
      if index < 0 || index >= |props.lineItems| {
        return Fail(InvalidIndex);
      }
      ItemsOkRemoveAt(props.lineItems, index);
      var items := Seqs.RemoveAt(props.lineItems, index);
      props := props.(lineItems := items, amount := Total(items));
      updatedAt := now;
      r := Pass;
    }
  }

  /** Creation: the status defaults to open, and an invoice with an invalid line item is
      not created. */
  method CreateInvoice(userId: string, subscriptionId: string, amount: int, currency: string,
                       status: Option<InvoiceStatus>, lineItems: seq<LineItem>, dueDate: int,
                       paidAt: Option<int>, providerInvoiceId: Option<string>, now: int)
    returns (r: Result<InvoiceEntity, InvoiceError>)
    ensures var p := InvoiceProps(userId, subscriptionId, amount, currency, status.GetOr(Open), lineItems,
                                  dueDate, paidAt, providerInvoiceId);
            match ValidateLineItems(lineItems)
            case Fail(e) => r == Failure(e)
            case Pass => r.Success? && fresh(r.value) && r.value.props == p && r.value.Valid()
  {
    var check := ValidateLineItems(lineItems);
    if check.Fail? {
      return Failure(check.error);
    }
    var p := InvoiceProps(userId, subscriptionId, amount, currency, status.GetOr(Open), lineItems,
                          dueDate, paidAt, providerInvoiceId);
    var inv := new InvoiceEntity.Make(p, now);
    r := Success(inv);
  }
}
