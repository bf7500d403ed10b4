/**
 * The client's payment flow for an accepted order: the confirmation page,
 * the start of a checkout (a Pending payment row plus a provider session),
 * the provider's success callback that settles the payment and the order,
 * the cancel return, and the payer's payment history.
 *
 * The provider is an oracle: `createSession` answers a checkout request
 * with a session, and `statusOf` answers a session id with the session's
 * provider-neutral status and payment-intent id. The clock readings are
 * the `now` parameter (and `later` in Start). The return URLs, which the
 * routing produces, are the parameters `successUrl` and `cancelUrl`.
 */
module Payments {
  import opened Domain
  import opened Data
  import Money
  import Listing
  import StripeProvider

  const Rub: string := "RUB"
  const StripeName: string := "Stripe"

  /** What the confirmation page shows. */
  datatype PaymentCreateDto = PaymentCreateDto(orderId: int, serviceTitle: string, amount: real, currency: string)

  /** What Start hands back: the new payment's id, the request it sent, and where it redirects. */
  datatype StartResult = StartResult(paymentId: int, request: StripeProvider.CheckoutRequest, redirectUrl: string)

  type ProviderReply = (StripeProvider.ExternalStatus, Option<string>)

  // ------------------------------------------------------------ checkout guards

  /**
   * The guards Create and Start share, in the order they are checked:
   * the order must exist, belong to the caller, and be Accepted.
   */
  function CheckoutGuard(orders: map<int, Order>, orderId: int, userId: UserId): (r: Option<Code>)
    ensures r.None? <==> orderId in orders && orders[orderId].clientId == userId && orders[orderId].status.Accepted?
    ensures r == Some(NotFound) <==> orderId !in orders
    ensures r == Some(Forbid) <==> orderId in orders && orders[orderId].clientId != userId
    ensures r == Some(BadRequest) <==> orderId in orders && orders[orderId].clientId == userId && !orders[orderId].status.Accepted?
  {
    if orderId !in orders then Some(NotFound)
    else if orders[orderId].clientId != userId then Some(Forbid)
    else if !orders[orderId].status.Accepted? then Some(BadRequest)
    else None
  }

  /** The confirmation page: reads the order and its service, changes nothing. */
  method Create(db: Db, orderId: int, userId: UserId) returns (r: Result<PaymentCreateDto>)
    ensures CheckoutGuard(db.orders, orderId, userId).Some? ==> r == Err(CheckoutGuard(db.orders, orderId, userId).value)
    ensures CheckoutGuard(db.orders, orderId, userId).None? && db.orders[orderId].serviceId !in db.services ==> r == Err(ServerError)
    ensures CheckoutGuard(db.orders, orderId, userId).None? && db.orders[orderId].serviceId in db.services ==> r.Ok?
    ensures r.Ok? ==>
      && CheckoutGuard(db.orders, orderId, userId).None?
      && var s := db.services[db.orders[orderId].serviceId];
      && r.value == PaymentCreateDto(orderId, s.title, s.price, Rub)
  {
    var g := CheckoutGuard(db.orders, orderId, userId);
    if g.Some? {
      return Err(g.value);
    }
    var order := db.orders[orderId];
    if order.serviceId !in db.services {
      return Err(ServerError);
    }
    var service := db.services[order.serviceId];
    r := Ok(PaymentCreateDto(orderId, service.title, service.price, Rub));
  }

  // ------------------------------------------------------------ start

  const DescriptionPrefix: string := "Оплата заказа #"

  /**
   * The product name of the checkout line item: the prefix, the order
   * number, two spaces and the service title. Both the title and the order
   * number can be read back out of it.
   */
  function Description(orderId: int, title: string): (d: string)
    ensures |d| >= |DescriptionPrefix| + |title| + 2
    ensures d[..|DescriptionPrefix|] == DescriptionPrefix
    ensures d[|d| - |title|..] == title && d[|d| - |title| - 2..|d| - |title|] == "  "
    ensures Money.ParseInt(d[|DescriptionPrefix|..|d| - |title| - 2]) == Some(orderId)
  {
    var n := Money.IntToString(orderId);
    var d := DescriptionPrefix + n + "  " + title;
    assert d[|DescriptionPrefix|..|d| - |title| - 2] == n;
    Money.IntToStringRoundTrip(orderId);
    d
  }

  /** Why Start fails before it writes anything, or None when it goes ahead. */
  function StartFailure(t: Tables, orderId: int, userId: UserId, user: Option<IdentityUser>): (r: Option<Code>)
    ensures CheckoutGuard(t.orders, orderId, userId).Some? ==> r == CheckoutGuard(t.orders, orderId, userId)
    ensures r.None? <==>
      && CheckoutGuard(t.orders, orderId, userId).None?
      && t.orders[orderId].serviceId in t.services
      && Money.FitsInLong(Money.MinorUnits(t.services[t.orders[orderId].serviceId].price))
      && user.Some?
    ensures r.Some? && CheckoutGuard(t.orders, orderId, userId).None? ==> r == Some(ServerError)
  {
    var g := CheckoutGuard(t.orders, orderId, userId);
    if g.Some? then g
    else if t.orders[orderId].serviceId !in t.services then Some(ServerError)
    else if !Money.FitsInLong(Money.MinorUnits(t.services[t.orders[orderId].serviceId].price)) then Some(ServerError)
    else if user.None? then Some(ServerError)
    else None
  }

  /**
   * Inserts a Pending payment for the order's price in kopecks, asks the
   * provider for a checkout session, records the session id on the payment
   * and redirects to the session's URL. A missing service, a price whose
   * kopeck amount overflows a long, or a user record that cannot be loaded
   * is an unhandled exception, before anything is written. The row is
   * created at `now`; `later` is the clock when the session id is saved.
   */
  method Start(
    db: Db, orderId: int, userId: UserId, user: Option<IdentityUser>,
    successUrl: string, cancelUrl: string,
    createSession: StripeProvider.CheckoutRequest -> StripeProvider.CheckoutSession, now: int, later: int)
    returns (r: Result<StartResult>)
    requires db.Valid()
    modifies db
    ensures db.Valid()
    ensures StartFailure(old(db.State()), orderId, userId, user).Some? ==>
      r == Err(StartFailure(old(db.State()), orderId, userId, user).value) && db.State() == old(db.State())
    ensures StartFailure(old(db.State()), orderId, userId, user).None? ==> r.Ok?
    ensures r.Ok? ==>
      && StartFailure(old(db.State()), orderId, userId, user).None?
      && var service := old(db.services)[old(db.orders)[orderId].serviceId];
      && var amount := Money.MinorUnits(service.price);
      && var pid := r.value.paymentId;
      && pid > 0 && pid !in old(db.payments)
      && r.value.request == StripeProvider.CheckoutRequest(
           successUrl, cancelUrl, Description(orderId, service.title), Rub, amount,
           if user.value.email.Some? then user.value.email.value else "",
           Money.IntToString(pid))
      && var session := createSession(r.value.request);
      && r.value.redirectUrl == session.sessionUrl
      && db.State() == old(db.State()).(payments := old(db.payments)[pid :=
           Payment(orderId, userId, amount, Rub, PaymentStatus.Pending, Some(StripeName),
                   Some(session.sessionId), None, now, later)])
  {
    var failure := StartFailure(db.State(), orderId, userId, user);
    if failure.Some? {
      return Err(failure.value);
    }
    var order := db.orders[orderId];
    var service := db.services[order.serviceId];
    var amountMinor := Money.MinorUnits(service.price);

    var pid := db.NewPaymentId();
    var payment := Payment(orderId, userId, amountMinor, Rub, PaymentStatus.Pending, Some(StripeName), None, None, now, now);
    db.payments := db.payments[pid := payment];

    var email := if user.value.email.Some? then user.value.email.value else "";
    var req := StripeProvider.CheckoutRequest(
      successUrl, cancelUrl, Description(orderId, service.title), Rub, amountMinor, email, Money.IntToString(pid));
    var session := createSession(req);

    db.payments := db.payments[pid := payment.(providerSessionId := Some(session.sessionId), updatedAt := later)];
    r := Ok(StartResult(pid, req, session.sessionUrl));
  }

  /**
   * The session Start opened carries the payment: its line item charges the
   * payment's amount, and its metadata reads back as the payment's id.
   */
  lemma StartedSessionIdentifiesPayment(p: Payment, pid: int, req: StripeProvider.CheckoutRequest)
    requires req.amountMinor == p.amountMinor && req.metadataPaymentId == Money.IntToString(pid)
    ensures StripeProvider.SessionOptionsFor(req).lineItems[0].unitAmount == p.amountMinor
    ensures Money.ParseInt(StripeProvider.SessionOptionsFor(req).metadata[StripeProvider.PaymentIdKey]) == Some(pid)
  {
    StripeProvider.MetadataIdentifiesPayment(req, pid);
  }

  // ------------------------------------------------------------ success callback

  /**
   * The payment after the success callback: the provider's payment-intent
   * id always replaces the stored one, a Succeeded, Canceled or Failed answer
   * becomes the payment's status whatever it was before, and a Pending or
   * Unknown answer leaves the status alone.
   */
  function Settle(p: Payment, reply: ProviderReply, now: int): (r: Payment)
    ensures r.providerPaymentIntentId == reply.1 && r.updatedAt == now
    ensures reply.0.Succeeded? ==> r.status == PaymentStatus.Succeeded
    ensures reply.0.Canceled? ==> r.status == PaymentStatus.Canceled
    ensures reply.0.Failed? ==> r.status == PaymentStatus.Failed
    ensures reply.0.Pending? || reply.0.Unknown? ==> r.status == p.status
    ensures r.(status := p.status, providerPaymentIntentId := p.providerPaymentIntentId, updatedAt := p.updatedAt) == p
  {
    var q := p.(providerPaymentIntentId := reply.1, updatedAt := now);
    match reply.0
    case Succeeded => q.(status := PaymentStatus.Succeeded)
    case Canceled => q.(status := PaymentStatus.Canceled)
    case Failed => q.(status := PaymentStatus.Failed)
    case _ => q
  }

  /** The order a succeeded payment pays for moves to Paid, but only out of Accepted. */
  function AdvanceOrder(orders: map<int, Order>, orderId: int): (r: map<int, Order>)
    ensures r.Keys == orders.Keys
    ensures forall k :: k in orders && k != orderId ==> r[k] == orders[k]
    ensures orderId in orders && orders[orderId].status.Accepted? ==> r[orderId] == orders[orderId].(status := OrderStatus.Paid)
    ensures orderId in orders && !orders[orderId].status.Accepted? ==> r[orderId] == orders[orderId]
  {
    if orderId in orders && orders[orderId].status.Accepted? then
      orders[orderId := orders[orderId].(status := OrderStatus.Paid)]
    else orders
  }

  /** The whole effect of a success callback that found payment `pid`. */
  function SuccessEffect(t: Tables, pid: int, reply: ProviderReply, now: int): (r: Tables)
    requires pid in t.payments
    ensures r == t.(payments := r.payments, orders := r.orders)
    ensures r.payments == t.payments[pid := Settle(t.payments[pid], reply, now)]
    ensures !reply.0.Succeeded? ==> r.orders == t.orders
    ensures reply.0.Succeeded? ==> r.orders == AdvanceOrder(t.orders, t.payments[pid].orderId)
  {
    var t' := t.(payments := t.payments[pid := Settle(t.payments[pid], reply, now)]);
    if reply.0.Succeeded? then t'.(orders := AdvanceOrder(t.orders, t.payments[pid].orderId)) else t'
  }

  /** Whether some payment carries this provider session id. */
  predicate HasSession(payments: map<int, Payment>, sessionId: string) {
    exists pid :: pid in payments && payments[pid].providerSessionId == Some(sessionId)
  }

  /**
   * The success return URL: looks the payment up by its provider session id,
   * asks the provider for the session's status and settles the payment and
   * its order. Answers with the settled payment's id.
   */
  method Success(db: Db, sessionId: Option<string>, statusOf: string -> ProviderReply, now: int)
    returns (r: Result<int>)
    requires db.Valid()
    modifies db
    ensures db.Valid()
    ensures IsBlank(sessionId) ==> r == Err(BadRequest) && db.State() == old(db.State())
    ensures !IsBlank(sessionId) && !HasSession(old(db.payments), sessionId.value) ==>
      r == Err(NotFound) && db.State() == old(db.State())
    ensures !IsBlank(sessionId) && HasSession(old(db.payments), sessionId.value) ==> r.Ok?
    ensures r.Ok? ==>
      && sessionId.Some?
      && r.value in old(db.payments)
      && old(db.payments)[r.value].providerSessionId == sessionId
      && db.State() == SuccessEffect(old(db.State()), r.value, statusOf(sessionId.value), now)
    ensures unchanged(db`nextPaymentId, db`nextOrderId)
  {
    if IsBlank(sessionId) {
      return Err(BadRequest);
    }
    var sid := sessionId.value;
    if !HasSession(db.payments, sid) {
      return Err(NotFound);
    }
    var pid :| pid in db.payments && db.payments[pid].providerSessionId == Some(sid);
    ghost var before := db.State();

    var reply := statusOf(sid);
    var payment := db.payments[pid].(providerPaymentIntentId := reply.1, updatedAt := now);
    match reply.0 {
      case Succeeded =>
        payment := payment.(status := PaymentStatus.Succeeded);
        var oid := payment.orderId;
        if oid in db.orders && db.orders[oid].status.Accepted? {
          db.orders := db.orders[oid := db.orders[oid].(status := OrderStatus.Paid)];
        }
      case Canceled =>
        payment := payment.(status := PaymentStatus.Canceled);
      case Failed =>
        payment := payment.(status := PaymentStatus.Failed);
      case _ =>
    }
    db.payments := db.payments[pid := payment];
    assert db.State() == SuccessEffect(before, pid, reply, now);
    r := Ok(pid);
  }

  /** A repeated callback with the same answer changes nothing more: the order is never advanced twice. */
  lemma SuccessIdempotent(t: Tables, pid: int, reply: ProviderReply, now: int)
    requires pid in t.payments
    ensures SuccessEffect(SuccessEffect(t, pid, reply, now), pid, reply, now) == SuccessEffect(t, pid, reply, now)
  {
    var t1 := SuccessEffect(t, pid, reply, now);
    var oid := t.payments[pid].orderId;
    assert t1.payments[pid].orderId == oid;
    if reply.0.Succeeded? && oid in t.orders {
      assert !t1.orders[oid].status.Accepted?;
      assert AdvanceOrder(t1.orders, oid) == t1.orders;
    }
  }

  /**
   * The callback moves an order only to Paid, only out of Accepted, only
   * when the provider answered Succeeded, and only the order the payment is for.
   */
  lemma SuccessOrderTransitions(t: Tables, pid: int, reply: ProviderReply, now: int, k: int)
    requires pid in t.payments && k in t.orders
    ensures k in SuccessEffect(t, pid, reply, now).orders
    ensures SuccessEffect(t, pid, reply, now).orders[k] != t.orders[k] ==>
      && reply.0.Succeeded?
      && k == t.payments[pid].orderId
      && t.orders[k].status.Accepted?
      && SuccessEffect(t, pid, reply, now).orders[k] == t.orders[k].(status := OrderStatus.Paid)
  {
  }

  /** Through the Stripe adapter, a paid session always leaves the payment Succeeded and its Accepted order Paid. */
  lemma PaidSessionSettles(t: Tables, pid: int, s: StripeProvider.StripeSession, now: int)
    requires pid in t.payments && s.paymentStatus == "paid"
    requires t.payments[pid].orderId in t.orders && t.orders[t.payments[pid].orderId].status.Accepted?
    ensures SuccessEffect(t, pid, StripeProvider.SessionStatus(s), now).payments[pid].status == PaymentStatus.Succeeded
    ensures SuccessEffect(t, pid, StripeProvider.SessionStatus(s), now).orders[t.payments[pid].orderId].status == OrderStatus.Paid
  {
  }

  // ------------------------------------------------------------ cancel return

  /** `pid` is the payment with the largest id among the order's payments. */
  ghost predicate IsNewest(payments: map<int, Payment>, orderId: int, pid: int) {
    && pid in payments && payments[pid].orderId == orderId
    && forall k :: k in payments && payments[k].orderId == orderId ==> k <= pid
  }

  /** The cancel return marks a payment Canceled only while it is still Pending. */
  function CancelPending(p: Payment, now: int): (r: Payment)
    ensures p.status.Pending? ==> r == p.(status := PaymentStatus.Canceled, updatedAt := now)
    ensures !p.status.Pending? ==> r == p
  {
    if p.status.Pending? then p.(status := PaymentStatus.Canceled, updatedAt := now) else p
  }

  /**
   * The cancel return URL: takes the order's newest payment and cancels it
   * if it is still Pending. Answers with that payment's id, or None when the
   * order has no payment.
   */
  method Cancel(db: Db, orderId: int, now: int) returns (r: Option<int>)
    requires db.Valid()
    modifies db
    ensures db.Valid()
    ensures r.None? <==> forall k :: k in old(db.payments) ==> old(db.payments)[k].orderId != orderId
    ensures r.None? ==> db.State() == old(db.State())
    ensures r.Some? ==>
      && IsNewest(old(db.payments), orderId, r.value)
      && db.State() == old(db.State()).(payments := old(db.payments)[r.value := CancelPending(old(db.payments)[r.value], now)])
    ensures unchanged(db`nextPaymentId)
  {
    var ids := set k | k in db.payments && db.payments[k].orderId == orderId;
    if ids == {} {
      forall k | k in db.payments ensures db.payments[k].orderId != orderId {
        assert k !in ids;
      }
      return None;
    }
    var pid := Largest(ids);
    forall k | k in db.payments && db.payments[k].orderId == orderId ensures k <= pid {
      assert k in ids;
    }
    var payment := db.payments[pid];
    if payment.status.Pending? {
      db.payments := db.payments[pid := payment.(status := PaymentStatus.Canceled, updatedAt := now)];
    }
    r := Some(pid);
  }

  /** A payment the provider has confirmed can no longer be canceled by the cancel return. */
  lemma CancelAfterSuccessKeepsPayment(p: Payment, reply: ProviderReply, now: int, later: int)
    requires reply.0.Succeeded? || reply.0.Failed? || reply.0.Canceled?
    ensures CancelPending(Settle(p, reply, now), later) == Settle(p, reply, now)
  {
  }

  /** Returning to the cancel URL twice cancels no more than once. */
  lemma CancelIdempotent(p: Payment, now: int, later: int)
    ensures CancelPending(CancelPending(p, now), later) == CancelPending(p, now)
  {
  }

  // ------------------------------------------------------------ history

  function PaymentCreatedAt(r: (int, Payment)): real {
    r.1.createdAt as real
  }

  /** The payer's payments, newest first. */
  method My(db: Db, userId: UserId) returns (r: seq<(int, Payment)>)
    ensures forall x :: x in r <==> x.0 in db.payments && db.payments[x.0] == x.1 && x.1.payerId == userId
    ensures forall i, j :: 0 <= i < j < |r| ==> r[i].1.createdAt >= r[j].1.createdAt
    ensures forall i, j :: 0 <= i < j < |r| ==> r[i].0 != r[j].0
  {
    var rows := Rows(db.payments);
    r := Listing.Query(rows, (x: (int, Payment)) => x.1.payerId == userId, PaymentCreatedAt, true);
    Listing.SelectionKeepsKeysDistinct(rows, r);
  }
}
