/**
 * The payment-provider adapter: the request the application sends to start
 * a checkout, the session options the Stripe adapter builds from it, and the
 * mapping from a Stripe session's state to the provider-neutral status the
 * payment flow reconciles against. The SDK calls themselves are not modelled.
 */
module StripeProvider {
  import opened Domain
  import Money

  /** Provider-neutral status of a checkout session. */
  datatype ExternalStatus = Unknown | Pending | Succeeded | Canceled | Failed

  /** What the application asks the provider for. */
  datatype CheckoutRequest = CheckoutRequest(
    successUrl: string,
    cancelUrl: string,
    description: string,
    currency: string,
    amountMinor: int,
    customerEmail: string,
    metadataPaymentId: string)

  /** What the provider answers when it creates a session. */
  datatype CheckoutSession = CheckoutSession(sessionId: string, sessionUrl: string)

  datatype LineItem = LineItem(unitAmount: int, currency: string, productName: string, quantity: int)

  /** The Stripe session-creation options. */
  datatype SessionOptions = SessionOptions(
    mode: string,
    successUrl: string,
    cancelUrl: string,
    customerEmail: string,
    lineItems: seq<LineItem>,
    metadata: map<string, string>)

  /** The state of a Stripe checkout session as the SDK reports it. */
  datatype StripeSession = StripeSession(paymentStatus: string, status: string, paymentIntentId: Option<string>)

  const SessionIdPlaceholder: string := "?session_id={CHECKOUT_SESSION_ID}"
  const PaymentIdKey: string := "payment_id"

  /**
   * The status mapping of GetSessionStatusAsync: a paid session succeeded
   * whatever its status, an unpaid expired one was canceled, anything else is
   * still pending. The payment intent id is passed through in every case.
   */
  function SessionStatus(s: StripeSession): (r: (ExternalStatus, Option<string>))
    ensures r.1 == s.paymentIntentId
    ensures r.0.Succeeded? <==> s.paymentStatus == "paid"
    ensures r.0.Canceled? <==> s.paymentStatus != "paid" && s.status == "expired"
    ensures r.0.Pending? <==> s.paymentStatus != "paid" && s.status != "expired"
  {
    if s.paymentStatus == "paid" then (ExternalStatus.Succeeded, s.paymentIntentId)
    else if s.status == "expired" then (ExternalStatus.Canceled, s.paymentIntentId)
    else (ExternalStatus.Pending, s.paymentIntentId)
  }

  /** The Stripe adapter never reports a failed or unknown session. */
  lemma SessionStatusNeverFailedOrUnknown(s: StripeSession)
    ensures !SessionStatus(s).0.Failed? && !SessionStatus(s).0.Unknown?
  {
  }

  /** The options CreateCheckoutSessionAsync builds before it calls the SDK. */
  function SessionOptionsFor(req: CheckoutRequest): (o: SessionOptions)
    ensures |o.lineItems| == 1 && o.lineItems[0].quantity == 1
    ensures o.lineItems[0].unitAmount == req.amountMinor
    ensures o.metadata.Keys == {PaymentIdKey}
  {
    SessionOptions(
      "payment",
      req.successUrl + SessionIdPlaceholder,
      req.cancelUrl,
      req.customerEmail,
      [LineItem(req.amountMinor, req.currency, req.description, 1)],
      map[PaymentIdKey := req.metadataPaymentId])
  }

  /**
   * Reads the request back out of the options, undoing the placeholder that
   * was appended to the success URL; None when the options have another shape.
   */
  function RequestOf(o: SessionOptions): Option<CheckoutRequest>
  {
    var n := |SessionIdPlaceholder|;
    if |o.lineItems| == 1 && PaymentIdKey in o.metadata && |o.successUrl| >= n
       && o.successUrl[|o.successUrl| - n..] == SessionIdPlaceholder
    then
      var item := o.lineItems[0];
      Some(CheckoutRequest(
        o.successUrl[..|o.successUrl| - n], o.cancelUrl, item.productName, item.currency,
        item.unitAmount, o.customerEmail, o.metadata[PaymentIdKey]))
    else None
  }

  /** The options carry every field of the request: nothing is lost or altered. */
  lemma SessionOptionsKeepRequest(req: CheckoutRequest)
    ensures RequestOf(SessionOptionsFor(req)) == Some(req)
  {
    var o := SessionOptionsFor(req);
    var n := |SessionIdPlaceholder|;
    assert o.successUrl[|o.successUrl| - n..] == SessionIdPlaceholder;
    assert o.successUrl[..|o.successUrl| - n] == req.successUrl;
  }

  /** The payment id in the session metadata reads back as the payment's id. */
  lemma MetadataIdentifiesPayment(req: CheckoutRequest, paymentId: int)
    requires req.metadataPaymentId == Money.IntToString(paymentId)
    ensures Money.ParseInt(SessionOptionsFor(req).metadata[PaymentIdKey]) == Some(paymentId)
  {
    Money.IntToStringRoundTrip(paymentId);
  }
}
