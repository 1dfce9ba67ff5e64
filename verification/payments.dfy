/**
 * Payments through the invoice provider: the status predicates, building
 * and recording an invoice for a submission, applying the provider's
 * webhook, and the payment endpoints' decisions. The provider itself is an
 * oracle: its reply to an invoice request is a parameter.
 */
module Payments {
  import opened Wrappers
  import opened Text
  import opened Money
  import opened Seqs
  import opened Http
  import opened Schema
  import opened Submissions

  /** The values of the `payments.status` column. */
  const PaymentStatusValues: seq<string> := ["pending", "paid", "expired", "failed"]

  /** An invoice is open for 24 hours. */
  const InvoiceDuration := 86400

  datatype Payment = Payment(
    id: string,
    submissionId: string,
    formId: string,
    pricingTierId: Option<string>,
    invoiceId: string,
    invoiceUrl: string,
    externalId: string,
    amount: Cents,
    currency: string,
    status: string,
    paymentMethod: Option<string>,
    paymentChannel: Option<string>,
    paidAt: Option<int>,
    expiredAt: Option<int>)

  predicate IsPaid(p: Payment) {
    p.status == "paid"
  }

  predicate IsPending(p: Payment) {
    p.status == "pending"
  }

  predicate IsExpired(p: Payment) {
    p.status == "expired"
  }

  predicate IsFailed(p: Payment) {
    p.status == "failed"
  }

  /** How many of the four status predicates hold. */
  function PredicatesHolding(p: Payment): nat {
    (if IsPaid(p) then 1 else 0) + (if IsPending(p) then 1 else 0) +
    (if IsExpired(p) then 1 else 0) + (if IsFailed(p) then 1 else 0)
  }

  /** On the column's values exactly one predicate holds; on any other string none does. */
  lemma ExactlyOneStatus(p: Payment)
    ensures p.status in PaymentStatusValues ==> PredicatesHolding(p) == 1
    ensures p.status !in PaymentStatusValues ==> PredicatesHolding(p) == 0
  {
  }

  datatype Customer = Customer(givenNames: string, email: Option<string>, mobileNumber: Option<string>)

  datatype InvoiceItem = InvoiceItem(name: string, quantity: int, price: Cents)

  datatype InvoiceRequest = InvoiceRequest(
    externalId: string,
    amount: Cents,
    payerEmail: Option<string>,
    description: string,
    invoiceDuration: int,
    currency: string,
    successRedirectUrl: string,
    failureRedirectUrl: string,
    customer: Option<Customer>,
    items: seq<InvoiceItem>)

  /** What the provider answers to an invoice request. */
  datatype ProviderInvoice = ProviderInvoice(id: string, invoiceUrl: string)

  /** The configured redirect targets. */
  datatype Redirects = Redirects(success: string, failure: string)

  /** "SUBMISSION-" + submission id + "-" + the Unix time. */
  function ExternalId(submissionId: string, time: int): (e: string)
    ensures |e| > 11 && e[..11] == "SUBMISSION-"
  {
    "SUBMISSION-" + submissionId + "-" + IntToString(time)
  }

  /** The characters after the last '-' (all of `s` when there is none). */
  function AfterLastDash(s: string): (r: string)
    ensures |r| <= |s|
  {
    if |s| == 0 || s[|s| - 1] == '-' then "" else AfterLastDash(s[..|s| - 1]) + [s[|s| - 1]]
  }

  /** A digit string after a '-' is exactly what follows the last '-'. */
  lemma {:induction false} AfterDashDigits(prefix: string, digits: string)
    requires AllDigits(digits)
    ensures AfterLastDash(prefix + "-" + digits) == digits
  {
    var s := prefix + "-" + digits;
    if |digits| == 0 {
      assert s[|s| - 1] == '-';
    } else {
      assert s[..|s| - 1] == prefix + "-" + digits[..|digits| - 1];
      assert s[|s| - 1] == digits[|digits| - 1];
      AfterDashDigits(prefix, digits[..|digits| - 1]);
      assert digits == digits[..|digits| - 1] + [digits[|digits| - 1]];
    }
  }

  /** The time can be read back from an external id: it is the digits after the last '-'. */
  lemma ExternalIdTime(submissionId: string, time: nat)
    ensures AllDigits(AfterLastDash(ExternalId(submissionId, time)))
    ensures DigitsValue(AfterLastDash(ExternalId(submissionId, time))) == time
  {
    AfterDashDigits("SUBMISSION-" + submissionId, IntToString(time));
  }

  /** Distinct (submission, time) pairs never share an external id. */
  lemma ExternalIdInjective(a: string, t1: nat, b: string, t2: nat)
    requires ExternalId(a, t1) == ExternalId(b, t2)
    ensures a == b && t1 == t2
  {
    ExternalIdTime(a, t1);
    ExternalIdTime(b, t2);
    var d := IntToString(t1);
    DropSuffix("SUBMISSION-" + a + "-", "SUBMISSION-" + b + "-", d);
    DropSuffix("SUBMISSION-" + a, "SUBMISSION-" + b, "-");
    DropPrefix("SUBMISSION-", a, b);
  }

  lemma DropSuffix(x: string, y: string, d: string)
    requires x + d == y + d
    ensures x == y
  {
    assert x == (x + d)[..|x|];
    assert y == (y + d)[..|y|];
  }

  lemma DropPrefix(p: string, x: string, y: string)
    requires p + x == p + y
    ensures x == y
  {
    assert x == (p + x)[|p|..];
    assert y == (p + y)[|p|..];
  }

  /** The name given to the provider: `nama_lengkap`, or "Customer" when absent. */
  function CustomerName(data: map<string, string>): string {
    if "nama_lengkap" in data then data["nama_lengkap"] else "Customer"
  }

  /** The request sent to the provider: the tier's price, one item, a customer block when the name is truthy. */
  function BuildInvoiceRequest(sub: Submission, form: Form, tier: PricingTier, now: int, redirects: Redirects)
    : InvoiceRequest
  {
    var externalId := ExternalId(sub.id, now);
    var email := Lookup(sub.data, "email");
    var name := CustomerName(sub.data);
    InvoiceRequest(
      externalId,
      tier.price,
      email,
      form.title + " - " + tier.name,
      InvoiceDuration,
      tier.currency,
      redirects.success + "?external_id=" + externalId,
      redirects.failure + "?external_id=" + externalId,
      if Truthy(name) then Some(Customer(name, email, Lookup(sub.data, "telepon"))) else None,
      [InvoiceItem(tier.name, 1, tier.price)])
  }

  datatype InvoiceError = TierNotFound | ProviderFailed

  datatype InvoiceOutcome = InvoiceOutcome(request: InvoiceRequest, payment: Payment, submission: Submission)

  /** The form's tier with this id (`$form->pricingTiers()->findOrFail`), active or not. */
  function FormTier(form: Form, tierId: Option<string>): (r: Option<PricingTier>)
    ensures r.Some? ==> tierId.Some? && r.value in form.pricingTiers && r.value.id == tierId.value
    ensures r.None? <==> tierId.None? || forall j :: 0 <= j < |form.pricingTiers| ==>
      form.pricingTiers[j].id != tierId.value
  {
    match tierId
    case None => None
    case Some(id) =>
      match FirstIndex(form.pricingTiers, (t: PricingTier) => t.id == id)
      case None => None
      case Some(i) => Some(form.pricingTiers[i])
  }

  /**
   * Invoice creation for a submission of `form`: the requested tier must be
   * one of the form's; the provider is asked for the tier's price (not the
   * submission total); the recorded payment is pending, expires after the
   * invoice duration, and carries the provider's id and URL; the submission
   * moves to "pending_payment" and nothing else of it changes.
   */
  function CreateInvoice(sub: Submission, form: Form, tierId: Option<string>, now: int,
                         redirects: Redirects, reply: Option<ProviderInvoice>, paymentId: string)
    : (r: Result<InvoiceOutcome, InvoiceError>)
    ensures FormTier(form, tierId).None? ==> r == Failure(TierNotFound)
    ensures FormTier(form, tierId).Some? && reply.None? ==> r == Failure(ProviderFailed)
    ensures r.Success? ==>
      var tier := FormTier(form, tierId).value;
      var o := r.value;
      && reply.Some?
      && o.request.externalId == ExternalId(sub.id, now) == o.payment.externalId
      && o.request.amount == tier.price == o.payment.amount
      && o.request.items == [InvoiceItem(tier.name, 1, tier.price)]
      && (o.request.customer.Some? <==> Truthy(CustomerName(sub.data)))
      && o.payment.status == "pending" && o.payment.expiredAt == Some(now + InvoiceDuration)
      && o.payment.paidAt.None?
      && o.payment.submissionId == sub.id && o.payment.formId == form.id
      && o.payment.invoiceId == reply.value.id && o.payment.invoiceUrl == reply.value.invoiceUrl
      && o.submission == sub.(status := "pending_payment")
  {
    match FormTier(form, tierId)
    case None => Failure(TierNotFound)
    case Some(tier) =>
      var request := BuildInvoiceRequest(sub, form, tier, now, redirects);
      match reply
      case None => Failure(ProviderFailed)
      case Some(invoice) =>
        var payment := Payment(paymentId, sub.id, form.id, Some(tier.id), invoice.id, invoice.invoiceUrl,
                               request.externalId, tier.price, tier.currency, "pending", None, None, None,
                               Some(now + InvoiceDuration));
        Success(InvoiceOutcome(request, payment, sub.(status := "pending_payment")))
  }

  /** Upsells are not invoiced: the invoice amount ignores the submission's total. */
  lemma InvoiceIgnoresTotal(sub: Submission, form: Form, tierId: Option<string>, now: int,
                            redirects: Redirects, reply: Option<ProviderInvoice>, paymentId: string, total: Cents)
    requires CreateInvoice(sub, form, tierId, now, redirects, reply, paymentId).Success?
    ensures CreateInvoice(sub.(totalAmount := total), form, tierId, now, redirects, reply, paymentId).value.payment.amount
      == CreateInvoice(sub, form, tierId, now, redirects, reply, paymentId).value.payment.amount
  {
  }

  /** A present but false-y `nama_lengkap` ("" or "0") drops the customer block. */
  lemma BlankNameDropsCustomer(sub: Submission, form: Form, tier: PricingTier, now: int, redirects: Redirects)
    requires "nama_lengkap" in sub.data && !Truthy(sub.data["nama_lengkap"])
    ensures BuildInvoiceRequest(sub, form, tier, now, redirects).customer.None?
  {
  }

  /** The payment with this external id (`where(external_id)->first()`). */
  function FindByExternalId(payments: seq<Payment>, externalId: string): (r: Option<nat>)
    ensures r.Some? ==> r.value < |payments| && payments[r.value].externalId == externalId
    ensures r.None? <==> forall j :: 0 <= j < |payments| ==> payments[j].externalId != externalId
  {
    FirstIndex(payments, (p: Payment) => p.externalId == externalId)
  }

  /** The outcome of a webhook: no payment, the (updated) payment, or a crash on a missing submission. */
  datatype WebhookResult = NoPayment | Handled(payment: Payment) | Crashed

  /** The submission status a webhook status leads to, if any. */
  function SubmissionStatusFor(status: string): Option<string> {
    if status == "paid" || status == "settled" then Some("paid")
    else if status == "expired" || status == "failed" then Some("draft")
    else None
  }

  /** The payment after a webhook with lower-cased `status`. */
  function ApplyWebhook(p: Payment, status: string, data: map<string, string>, now: int): Payment {
    if status == "paid" || status == "settled" then
      p.(status := "paid", paymentMethod := Lookup(data, "payment_method"),
         paymentChannel := Lookup(data, "payment_channel"), paidAt := Some(now))
    else if status == "expired" then p.(status := "expired")
    else if status == "failed" then p.(status := "failed")
    else p
  }

  /**
   * The provider's webhook. A missing or false-y external id, or one naming
   * no payment, changes nothing. Otherwise the lower-cased status decides:
   * "paid"/"settled" marks the payment paid (method, channel, time) and its
   * submission "paid"; "expired" and "failed" mark the payment so and the
   * submission "draft"; anything else changes nothing. The current status
   * is not consulted. When the submission is missing, the payment update
   * has already been stored and the handler crashes.
   */
  function HandleWebhook(payments: seq<Payment>, subs: seq<Submission>, data: map<string, string>, now: int)
    : (r: (WebhookResult, seq<Payment>, seq<Submission>))
    ensures |r.1| == |payments| && |r.2| == |subs|
    ensures r.0 == NoPayment <==>
      !("external_id" in data && Truthy(data["external_id"])) ||
      FindByExternalId(payments, data["external_id"]).None?
    ensures r.0 == NoPayment ==> r.1 == payments && r.2 == subs
    ensures r.0 != NoPayment ==>
      var k := FindByExternalId(payments, data["external_id"]).value;
      var status := ToLower(Lookup(data, "status").GetOr(""));
      && r.1 == payments[k := ApplyWebhook(payments[k], status, data, now)]
      && (r.0.Handled? ==> r.0.payment == r.1[k])
      && (r.0.Crashed? <==>
            SubmissionStatusFor(status).Some? && FindSubmission(subs, payments[k].submissionId).None?)
      && (SubmissionStatusFor(status).None? || r.0.Crashed? ==> r.2 == subs)
      && (SubmissionStatusFor(status).Some? && r.0.Handled? ==>
            var i := FindSubmission(subs, payments[k].submissionId).value;
            r.2 == subs[i := subs[i].(status := SubmissionStatusFor(status).value)])
  {
    var externalId := Lookup(data, "external_id");
    if externalId.None? || !Truthy(externalId.value) then (NoPayment, payments, subs)
    else
      match FindByExternalId(payments, externalId.value)
      case None => (NoPayment, payments, subs)
      case Some(k) =>
        var status := ToLower(Lookup(data, "status").GetOr(""));
        var p := ApplyWebhook(payments[k], status, data, now);
        var after := payments[k := p];
        match SubmissionStatusFor(status)
        case None => (Handled(p), after, subs)
        case Some(subStatus) =>
          match FindSubmission(subs, p.submissionId)
          case None => (Crashed, after, subs)
          case Some(i) => (Handled(p), after, subs[i := subs[i].(status := subStatus)])
  }

  /** Status matching ignores case: "PAID" does what "paid" does. */
  lemma WebhookCaseInsensitive(payments: seq<Payment>, subs: seq<Submission>, data: map<string, string>, now: int)
    ensures HandleWebhook(payments, subs, data["status" := "PAID"], now).1 ==
      HandleWebhook(payments, subs, data["status" := "paid"], now).1
  {
    var shouted := data["status" := "PAID"];
    var plain := data["status" := "paid"];
    assert ToLower("PAID") == "paid";
    assert ToLower("paid") == "paid";
    assert ToLower(Lookup(shouted, "status").GetOr("")) == ToLower(Lookup(plain, "status").GetOr(""));
    assert Lookup(shouted, "external_id") == Lookup(plain, "external_id");
    assert Lookup(shouted, "payment_method") == Lookup(plain, "payment_method");
    assert Lookup(shouted, "payment_channel") == Lookup(plain, "payment_channel");
  }

  /** A replayed "paid" webhook is applied again and moves `paid_at` to the replay's time. */
  lemma PaidReplayRewritesTime(payments: seq<Payment>, subs: seq<Submission>, data: map<string, string>,
                               first: int, second: int)
    requires "external_id" in data && Truthy(data["external_id"])
    requires FindByExternalId(payments, data["external_id"]).Some?
    requires "status" in data && data["status"] == "paid"
    ensures var once := HandleWebhook(payments, subs, data, first);
      var twice := HandleWebhook(once.1, once.2, data, second);
      twice.1[FindByExternalId(payments, data["external_id"]).value].paidAt == Some(second)
  {
    var k := FindByExternalId(payments, data["external_id"]).value;
    assert ToLower("paid") == "paid";
    var once := HandleWebhook(payments, subs, data, first);
    PaymentFoundAfterUpdate(payments, data["external_id"], k, once.1[k]);
  }

  /** Updating the payment found by external id, keeping that id, leaves it the one found. */
  lemma PaymentFoundAfterUpdate(payments: seq<Payment>, externalId: string, k: nat, p: Payment)
    requires FindByExternalId(payments, externalId) == Some(k)
    requires p.externalId == externalId
    ensures FindByExternalId(payments[k := p], externalId) == Some(k)
  {
    var after := payments[k := p];
    var matches := (q: Payment) => q.externalId == externalId;
    assert FirstIndex(payments, matches) == Some(k);
    assert forall j :: 0 <= j < k ==> after[j] == payments[j];
    assert matches(after[k]);
  }

  /** The webhook's token check: the header must equal the configured token, both possibly absent. */
  predicate TokenAccepted(header: Option<string>, configured: Option<string>) {
    header == configured
  }

  /** With no token configured, a request without the header is accepted. */
  lemma UnconfiguredTokenAcceptsNoHeader()
    ensures TokenAccepted(None, None)
    ensures forall t: string :: !TokenAccepted(Some(t), None)
  {
  }

  /**
   * The webhook endpoint: 401 before anything else on a token mismatch;
   * then 404 when no payment is found, 200 with the payment, 500 on a crash.
   */
  function Webhook(header: Option<string>, configured: Option<string>, payments: seq<Payment>,
                   subs: seq<Submission>, data: map<string, string>, now: int)
    : (r: (int, seq<Payment>, seq<Submission>))
    ensures !TokenAccepted(header, configured) ==> r == (Unauthorized, payments, subs)
    ensures TokenAccepted(header, configured) ==>
      var h := HandleWebhook(payments, subs, data, now);
      && r.1 == h.1 && r.2 == h.2
      && r.0 == (if h.0.NoPayment? then NotFound else if h.0.Crashed? then ServerError else Ok)
  {
    if !TokenAccepted(header, configured) then (Unauthorized, payments, subs)
    else
      var (result, after, subsAfter) := HandleWebhook(payments, subs, data, now);
      match result
      case NoPayment => (NotFound, after, subsAfter)
      case Crashed => (ServerError, after, subsAfter)
      case Handled(_) => (Ok, after, subsAfter)
  }

  /**
   * The webhook endpoint as written. The payment update is stored first;
   * the submission's status is then written as "paid" or "draft", neither a
   * value of the `status` column, so every event that would move a
   * submission to a new status ends in 500 with only the payment changed.
   * Everything else is answered as by the corrected endpoint.
   */
  function WebhookAsWritten(header: Option<string>, configured: Option<string>, payments: seq<Payment>,
                            subs: seq<Submission>, data: map<string, string>, now: int)
    : (r: (int, seq<Payment>, seq<Submission>))
    ensures r.2 == subs
    ensures r.1 == Webhook(header, configured, payments, subs, data, now).1
    ensures var c := Webhook(header, configured, payments, subs, data, now);
      && (r.0 == ServerError <==> c.0 == ServerError || (c.0 == Ok && c.2 != subs))
      && (r.0 != ServerError ==> r.0 == c.0)
  {
    var c := Webhook(header, configured, payments, subs, data, now);
    if c.0 == Ok && c.2 != subs then (ServerError, c.1, subs) else c
  }

  /**
   * A "paid" event for a stored payment whose submission holds a status
   * the column accepts is answered 200 with the submission paid by the
   * corrected endpoint, and 500 as written, with the payment marked paid
   * and the submission untouched.
   */
  lemma {:induction false} PaidEventFailsAsWritten(header: Option<string>, payments: seq<Payment>, subs: seq<Submission>,
                                                   data: map<string, string>, now: int)
    requires "external_id" in data && Truthy(data["external_id"])
    requires FindByExternalId(payments, data["external_id"]).Some?
    requires "status" in data && data["status"] == "paid"
    requires var k := FindByExternalId(payments, data["external_id"]).value;
      FindSubmission(subs, payments[k].submissionId).Some? &&
      StatusesStorable(subs[FindSubmission(subs, payments[k].submissionId).value])
    ensures Webhook(header, header, payments, subs, data, now).0 == Ok
    ensures var r := WebhookAsWritten(header, header, payments, subs, data, now);
      var k := FindByExternalId(payments, data["external_id"]).value;
      && r.0 == ServerError && r.2 == subs && IsPaid(r.1[k])
  {
    var k := FindByExternalId(payments, data["external_id"]).value;
    var i := FindSubmission(subs, payments[k].submissionId).value;
    var h := HandleWebhook(payments, subs, data, now);
    PaidWebhookHandled(payments, subs, data, now);
    var c := Webhook(header, header, payments, subs, data, now);
    assert c.0 == Ok && c.1 == h.1 && c.2 == h.2;
    assert c.2[i].status == "paid";
    assert subs[i].status in SubmissionStatuses;
  }

  /** A "paid" event for a stored payment whose submission exists is handled and marks that submission "paid". */
  lemma PaidWebhookHandled(payments: seq<Payment>, subs: seq<Submission>, data: map<string, string>, now: int)
    requires "external_id" in data && Truthy(data["external_id"])
    requires FindByExternalId(payments, data["external_id"]).Some?
    requires "status" in data && data["status"] == "paid"
    requires FindSubmission(subs, payments[FindByExternalId(payments, data["external_id"]).value].submissionId).Some?
    ensures var k := FindByExternalId(payments, data["external_id"]).value;
      var i := FindSubmission(subs, payments[k].submissionId).value;
      var h := HandleWebhook(payments, subs, data, now);
      && h.0.Handled? && IsPaid(h.1[k]) && h.2 == subs[i := subs[i].(status := "paid")]
  {
    assert ToLower("paid") == "paid";
    assert ToLower(Lookup(data, "status").GetOr("")) == "paid";
  }

  /** A pending or paid payment of the submission blocks a new invoice. */
  function Blocking(submissionId: string): Payment -> bool {
    (p: Payment) => p.submissionId == submissionId && (p.status == "pending" || p.status == "paid")
  }

  /** The form with this id. */
  function FindForm(forms: seq<Form>, id: string): (r: Option<nat>)
    ensures r.Some? ==> r.value < |forms| && forms[r.value].id == id
    ensures r.None? <==> forall j :: 0 <= j < |forms| ==> forms[j].id != id
  {
    FirstIndex(forms, (f: Form) => f.id == id)
  }

  datatype InvoiceResponse = InvoiceResponse(code: int, payment: Option<Payment>, invoiceUrl: Option<string>)

  /**
   * The create-invoice endpoint. Every failure, a missing submission
   * included, is caught and answered 500. A form without payment is 400.
   * An existing pending or paid payment short-circuits: paid is 400, pending
   * is 200 with that payment and its URL, and the provider is not asked.
   * Otherwise one invoice is created and 201 returned.
   */
  function CreateInvoiceEndpoint(subs: seq<Submission>, forms: seq<Form>, payments: seq<Payment>,
                                 submissionId: string, tierId: Option<string>, now: int,
                                 redirects: Redirects, reply: Option<ProviderInvoice>, paymentId: string)
    : (r: (InvoiceResponse, seq<Payment>, seq<Submission>))
    ensures r.0.code != Created ==> r.1 == payments && r.2 == subs
    ensures r.0.code == Created ==>
      && |r.1| == |payments| + 1 && r.1[..|payments|] == payments
      && r.0.payment == Some(r.1[|payments|]) && IsPending(r.1[|payments|])
      && r.1[|payments|].submissionId == submissionId
      && FirstIndex(payments, Blocking(submissionId)).None?
    ensures r.0.code in {Ok, Created, BadRequest, ServerError}
    ensures FindSubmission(subs, submissionId).None? ==> r.0.code == ServerError
    ensures r.0.code == Ok ==>
      var k := FirstIndex(payments, Blocking(submissionId));
      k.Some? && IsPending(payments[k.value]) && r.0.payment == Some(payments[k.value]) &&
      r.0.invoiceUrl == Some(payments[k.value].invoiceUrl)
  {
    match FindSubmission(subs, submissionId)
    case None => (InvoiceResponse(ServerError, None, None), payments, subs)
    case Some(i) =>
      var sub := subs[i];
      match FindForm(forms, sub.formId)
      case None => (InvoiceResponse(ServerError, None, None), payments, subs)
      case Some(f) =>
        var form := forms[f];
        if !form.enablePayment then (InvoiceResponse(BadRequest, None, None), payments, subs)
        else
          match FirstIndex(payments, Blocking(sub.id))
          case Some(k) =>
            if IsPaid(payments[k]) then (InvoiceResponse(BadRequest, Some(payments[k]), None), payments, subs)
            else (InvoiceResponse(Ok, Some(payments[k]), Some(payments[k].invoiceUrl)), payments, subs)
          case None =>
            match CreateInvoice(sub, form, tierId, now, redirects, reply, paymentId)
            case Failure(_) => (InvoiceResponse(ServerError, None, None), payments, subs)
            case Success(o) =>
              (InvoiceResponse(Created, Some(o.payment), Some(o.payment.invoiceUrl)),
               payments + [o.payment], subs[i := o.submission])
  }

  /**
   * Asking again while the invoice is pending returns the same payment with
   * 200 and creates nothing, whatever the provider would answer.
   */
  lemma RepeatedRequestReturnsSamePayment(subs: seq<Submission>, forms: seq<Form>, payments: seq<Payment>,
                                          submissionId: string, tierId: Option<string>, now: int, later: int,
                                          redirects: Redirects, reply: Option<ProviderInvoice>,
                                          reply2: Option<ProviderInvoice>, paymentId: string, paymentId2: string)
    requires CreateInvoiceEndpoint(subs, forms, payments, submissionId, tierId, now, redirects, reply, paymentId).0.code
      == Created
    ensures var first := CreateInvoiceEndpoint(subs, forms, payments, submissionId, tierId, now, redirects, reply, paymentId);
      var second := CreateInvoiceEndpoint(first.2, forms, first.1, submissionId, tierId, later, redirects, reply2, paymentId2);
      && second.0.code == Ok && second.0.payment == first.0.payment
      && second.1 == first.1 && second.2 == first.2
  {
    var first := CreateInvoiceEndpoint(subs, forms, payments, submissionId, tierId, now, redirects, reply, paymentId);
    var i := FindSubmission(subs, submissionId).value;
    var sub := subs[i];
    var form := forms[FindForm(forms, sub.formId).value];
    var created := CreateInvoice(sub, form, tierId, now, redirects, reply, paymentId);
    var o := created.value;
    assert first.2 == subs[i := o.submission] && first.1 == payments + [o.payment];
    FoundAfterUpdate(subs, submissionId, i, o.submission);
    BlockedByNewPayment(payments, submissionId, o.payment);
  }

  /** Replacing the first match by a record with the same id keeps it the first match. */
  lemma FoundAfterUpdate(subs: seq<Submission>, id: string, i: nat, s: Submission)
    requires FindSubmission(subs, id) == Some(i)
    requires s.id == id
    ensures FindSubmission(subs[i := s], id) == Some(i)
  {
    var t := subs[i := s];
    assert forall j :: 0 <= j < i ==> t[j] == subs[j];
    assert t[i].id == id;
    var k := FindSubmission(t, id);
    assert k.Some?;
    assert k.value <= i && k.value >= i;
  }

  /** With no blocking payment before it, an appended pending payment is the first blocking one. */
  lemma BlockedByNewPayment(payments: seq<Payment>, id: string, p: Payment)
    requires FirstIndex(payments, Blocking(id)).None?
    requires p.submissionId == id && IsPending(p)
    ensures FirstIndex(payments + [p], Blocking(id)) == Some(|payments|)
  {
    var all := payments + [p];
    assert Blocking(id)(all[|payments|]);
    assert forall j :: 0 <= j < |payments| ==> all[j] == payments[j];
  }

  /**
   * The create-invoice endpoint as written. Invoice creation stores the
   * payment and then writes "pending_payment" to the submission's status,
   * which the column refuses; nothing rolls the payment back, so the caught
   * failure is answered 500 with the new pending payment kept and the
   * submission unchanged. Everything else is answered as by the corrected
   * endpoint.
   */
  function CreateInvoiceEndpointAsWritten(subs: seq<Submission>, forms: seq<Form>, payments: seq<Payment>,
                                          submissionId: string, tierId: Option<string>, now: int,
                                          redirects: Redirects, reply: Option<ProviderInvoice>, paymentId: string)
    : (r: (InvoiceResponse, seq<Payment>, seq<Submission>))
    ensures r.0.code in {Ok, BadRequest, ServerError}
    ensures r.2 == subs
    ensures var c := CreateInvoiceEndpoint(subs, forms, payments, submissionId, tierId, now, redirects, reply, paymentId);
      && (c.0.code != Created ==> r == c)
      && (c.0.code == Created ==>
          && r.0.code == ServerError && r.0.payment.None?
          && |r.1| == |payments| + 1 && r.1[..|payments|] == payments
          && IsPending(r.1[|payments|]) && r.1[|payments|].submissionId == submissionId)
  {
    var c := CreateInvoiceEndpoint(subs, forms, payments, submissionId, tierId, now, redirects, reply, paymentId);
    if c.0.code == Created then (InvoiceResponse(ServerError, None, None), c.1, subs) else c
  }

  /**
   * As written the first request for a new invoice is answered 500 though
   * the invoice exists; the next request finds the stored pending payment
   * and answers 200 with it, asking the provider nothing.
   */
  lemma {:induction false} RetryFindsStoredInvoiceAsWritten(subs: seq<Submission>, forms: seq<Form>,
      payments: seq<Payment>, submissionId: string, tierId: Option<string>, now: int, later: int,
      redirects: Redirects, reply: Option<ProviderInvoice>, reply2: Option<ProviderInvoice>,
      paymentId: string, paymentId2: string)
    requires CreateInvoiceEndpoint(subs, forms, payments, submissionId, tierId, now, redirects, reply, paymentId).0.code
      == Created
    ensures var first := CreateInvoiceEndpointAsWritten(subs, forms, payments, submissionId, tierId, now,
                                                        redirects, reply, paymentId);
      var second := CreateInvoiceEndpointAsWritten(first.2, forms, first.1, submissionId, tierId, later,
                                                   redirects, reply2, paymentId2);
      && first.0.code == ServerError
      && second.0.code == Ok && second.0.payment == Some(first.1[|payments|])
      && second.1 == first.1 && second.2 == subs
  {
    var first := CreateInvoiceEndpointAsWritten(subs, forms, payments, submissionId, tierId, now,
                                                redirects, reply, paymentId);
    var i := FindSubmission(subs, submissionId).value;
    var sub := subs[i];
    var form := forms[FindForm(forms, sub.formId).value];
    var o := CreateInvoice(sub, form, tierId, now, redirects, reply, paymentId).value;
    assert first.1 == payments + [o.payment];
    BlockedByNewPayment(payments, submissionId, o.payment);
  }
}
