/**
 * Submitting a public form, end to end: find the active form by slug,
 * validate the data, price the request, attribute the referral, classify
 * the submission as free or paid, store it under a generated number, and
 * for a paid one open an invoice. The whole run is one transaction: a
 * failure leaves every table as it was. Then the public endpoint's
 * response.
 */
module Submit {
  import opened Wrappers
  import opened Text
  import opened Money
  import opened Http
  import opened Schema
  import opened FormView
  import opened Affiliates
  import opened Pricing
  import opened Validation
  import opened Numbering
  import opened Submissions
  import opened Payments

  datatype SubmitRequest = SubmitRequest(
    formSlug: string,
    data: map<string, string>,
    pricingTierId: Option<string>,
    upsellsSelected: Option<seq<string>>,
    paymentMethod: Option<string>)

  /**
   * What the run takes from outside: the clock and its calendar year, the
   * client's address and agent, the ids the database assigns, the redirect
   * configuration and the provider's reply to an invoice request.
   */
  datatype Env = Env(
    now: int,
    year: nat,
    ip: Option<string>,
    userAgent: Option<string>,
    submissionId: string,
    paymentId: string,
    redirects: Redirects,
    reply: Option<ProviderInvoice>)

  /** The tables a submission reads and writes. */
  datatype Tables = Tables(
    forms: seq<Form>,
    tiers: seq<PricingTier>,
    upsells: seq<Upsell>,
    rewards: seq<AffiliateReward>,
    submissions: seq<Submission>,
    payments: seq<Payment>)

  datatype Contact = Contact(name: Option<string>, email: Option<string>, phone: Option<string>)

  /** Contact details from the data: `name` else `full_name`, `email`, `phone` else `phone_number`. */
  function ExtractContactInfo(data: map<string, string>): (c: Contact)
    ensures c.name.Some? <==> "name" in data || "full_name" in data
    ensures "name" in data ==> c.name == Some(data["name"])
    ensures "name" !in data && "full_name" in data ==> c.name == Some(data["full_name"])
    ensures c.email == Lookup(data, "email")
    ensures c.phone.Some? <==> "phone" in data || "phone_number" in data
    ensures "phone" in data ==> c.phone == Some(data["phone"])
    ensures "phone" !in data && "phone_number" in data ==> c.phone == Some(data["phone_number"])
  {
    Contact(
      Coalesce(Lookup(data, "name"), Lookup(data, "full_name")),
      Lookup(data, "email"),
      Coalesce(Lookup(data, "phone"), Lookup(data, "phone_number")))
  }

  datatype SubmitError =
    | FormNotFound
    | ValidationFailed
    | UnknownTier
    | InvoiceFailed(reason: InvoiceError)
    | RelationNotFound
    | StatusRejected

  /** The response status each failure ends in. */
  function ErrorStatus(e: SubmitError): int {
    match e
    case FormNotFound => NotFound
    case ValidationFailed => Unprocessable
    case UnknownTier => NotFound
    case InvoiceFailed(TierNotFound) => NotFound
    case InvoiceFailed(ProviderFailed) => ServerError
    case RelationNotFound => ServerError
    case StatusRejected => ServerError
  }

  datatype Submitted = Submitted(submission: Submission, tables: Tables, invoice: Option<Payment>)

  /** Free: the form takes no payment, or the total is zero. */
  predicate IsFree(form: Form, total: Cents) {
    !form.enablePayment || total == 0
  }

  /** What numbering reads of the stored submissions. */
  function Records(subs: seq<Submission>): (r: seq<NumberedRecord>)
    ensures |r| == |subs|
    ensures forall i :: 0 <= i < |subs| ==>
      r[i] == NumberedRecord(subs[i].submissionNumber, subs[i].createdYear, subs[i].createdAt)
  {
    if |subs| == 0 then []
    else [NumberedRecord(subs[0].submissionNumber, subs[0].createdYear, subs[0].createdAt)] + Records(subs[1..])
  }

  /** The attributes mass assignment lets through on a submission. */
  const SubmissionFillable: set<string> := {
    "form_id", "submission_number", "name", "email", "phone", "data", "pricing_tier_id",
    "selected_upsells", "tier_amount", "upsells_amount", "affiliate_amount", "total_amount",
    "payment_status", "payment_method", "paid_at", "affiliate_reward_id", "status", "submitted_at"}

  /** The attributes the service passes when creating a submission. */
  const SubmissionCreateKeys: set<string> := {
    "form_id", "data", "status", "payment_status", "pricing_tier_id", "amount", "upsells_selected",
    "total_amount", "payment_method", "affiliate_code", "affiliate_reward_id", "affiliate_commission",
    "contact_name", "contact_email", "contact_phone", "ip_address", "user_agent", "paid_at"}

  /**
   * What the fillable filter keeps of the service's attributes, and the
   * nine it discards: the record NewSubmission builds carries those nine as
   * the values passed, which the created model does not hold.
   */
  lemma CreateKeysFiltered()
    ensures SubmissionCreateKeys * SubmissionFillable == {
      "form_id", "data", "status", "payment_status", "pricing_tier_id", "total_amount",
      "payment_method", "affiliate_reward_id", "paid_at"}
    ensures SubmissionCreateKeys - SubmissionFillable == {
      "amount", "upsells_selected", "affiliate_code", "affiliate_commission", "contact_name",
      "contact_email", "contact_phone", "ip_address", "user_agent"}
  {
  }

  /**
   * The record the service creates. Free submissions are written with
   * status "paid", payment status "approved", method "free" and the paid
   * time; others with "pending" twice and the requested method. Declared
   * columns the service does not write keep their defaults.
   */
  function NewSubmission(form: Form, req: SubmitRequest, amounts: Amounts, attribution: Attribution,
                         contact: Contact, env: Env, number: string): (s: Submission)
    ensures s.id == env.submissionId && s.formId == form.id && s.submissionNumber == number
    ensures s.totalAmount == amounts.total && s.amount == amounts.base
    ensures IsFree(form, amounts.total) ==>
      s.status == "paid" && s.paymentStatus == "approved" && s.paymentMethod == Some("free") && s.paidAt == Some(env.now)
    ensures !IsFree(form, amounts.total) ==>
      s.status == "pending" && s.paymentStatus == "pending" && s.paymentMethod == req.paymentMethod && s.paidAt.None?
    ensures s.affiliateCode == attribution.code && s.affiliateRewardId == attribution.rewardId
    ensures s.affiliateCommission == attribution.commission
  {
    var free := IsFree(form, amounts.total);
    Submission(
      env.submissionId, form.id, number, None, None, None, req.data,
      req.pricingTierId, None, 0, 0, 0, amounts.total,
      if free then "approved" else "pending",
      if free then Some("free") else req.paymentMethod,
      if free then Some(env.now) else None,
      attribution.rewardId,
      if free then "paid" else "pending",
      None, env.now, env.year,
      amounts.base, req.upsellsSelected, attribution.code, attribution.commission,
      contact.name, contact.email, contact.phone, env.ip, env.userAgent)
  }

  /**
   * The service run up to and including the invoice, with the rule lists
   * `rulesOf` builds. `others` is the validator's verdict on the rules this
   * model leaves uninterpreted.
   */
  function Pipeline(t: Tables, req: SubmitRequest, env: Env, others: bool,
                    rulesOf: seq<Section> -> seq<FieldRules>): (r: Result<Submitted, SubmitError>)
    ensures r.Success? ==> r.value.submission.status in {"paid", "pending_payment"}
  {
    match FindActiveBySlug(t.forms, req.formSlug)
    case None => Failure(FormNotFound)
    case Some(form) =>
      if !Passes(rulesOf(form.sections), req.data, t.rewards, form.id, others) then Failure(ValidationFailed)
      else
        var contact := ExtractContactInfo(req.data);
        match CalculateAmounts(form, req.pricingTierId, req.upsellsSelected, t.tiers, t.upsells)
        case Failure(_) => Failure(UnknownTier)
        case Success(amounts) =>
          var (attribution, rewards) := ProcessAffiliate(form, req.data, amounts.total, t.rewards);
          var number := NumberOnCreate(None, Records(t.submissions), env.year);
          Record(t, form, req, env, NewSubmission(form, req, amounts, attribution, contact, env, number), rewards)
  }

  /**
   * Storing the new record `sub` once everything before has passed: a free
   * one is appended as it is; any other has an invoice opened for it, and
   * both the record, now awaiting payment, and the payment are appended.
   * The rewards table becomes `rewards`; the other tables stay.
   */
  function Record(t: Tables, form: Form, req: SubmitRequest, env: Env, sub: Submission, rewards: seq<AffiliateReward>)
    : (r: Result<Submitted, SubmitError>)
    ensures IsFree(form, sub.totalAmount) ==>
      r == Success(Submitted(sub, t.(rewards := rewards, submissions := t.submissions + [sub]), None))
    ensures !IsFree(form, sub.totalAmount) && r.Success? ==>
      var s := r.value.submission;
      && s == sub.(status := "pending_payment")
      && r.value.invoice.Some?
      && r.value.tables == t.(rewards := rewards, submissions := t.submissions + [s],
                             payments := t.payments + [r.value.invoice.value])
      && IsPending(r.value.invoice.value)
      && r.value.invoice.value.submissionId == sub.id
      && FormTier(form, req.pricingTierId).Some?
      && r.value.invoice.value.amount == FormTier(form, req.pricingTierId).value.price
  {
    if IsFree(form, sub.totalAmount) then
      Success(Submitted(sub, t.(rewards := rewards, submissions := t.submissions + [sub]), None))
    else
      match CreateInvoice(sub, form, req.pricingTierId, env.now, env.redirects, env.reply, env.paymentId)
      case Failure(e) => Failure(InvoiceFailed(e))
      case Success(o) =>
        Success(Submitted(o.submission,
          t.(rewards := rewards, submissions := t.submissions + [o.submission],
             payments := t.payments + [o.payment]),
          Some(o.payment)))
  }

  /**
   * The submission service as intended: rules keyed by field name with
   * presence from `is_required`, and the created submission returned.
   * A failure leaves every table unchanged. On success:
   * - the form is the active one with the slug, and the data passed validation;
   * - the amounts are those of the pricing rules, the total their sum;
   * - a free submission is stored "paid"/"approved" with method "free" and
   *   the paid time, and no invoice is opened;
   * - any other is stored "pending_payment"/"pending" with no paid time, and
   *   exactly one pending invoice for the tier's price is recorded;
   * - the referral outcome is that of attribution, and the rewards table is
   *   the one attribution leaves;
   * - the number is the year's next one, and the record is appended.
   */
  function SubmitForm(t: Tables, req: SubmitRequest, env: Env, others: bool): (r: Result<Submitted, SubmitError>)
    ensures FindActiveBySlug(t.forms, req.formSlug).None? ==> r == Failure(FormNotFound)
    ensures r.Success? ==>
      var form := FindActiveBySlug(t.forms, req.formSlug).value;
      var amounts := CalculateAmounts(form, req.pricingTierId, req.upsellsSelected, t.tiers, t.upsells);
      var s := r.value.submission;
      var after := r.value.tables;
      && Passes(Rules(form.sections), req.data, t.rewards, form.id, others)
      && amounts.Success?
      && s.totalAmount == amounts.value.total && s.amount == amounts.value.base
      && (IsFree(form, s.totalAmount) <==> r.value.invoice.None?)
      && (IsFree(form, s.totalAmount) ==>
            && s.status == "paid" && s.paymentStatus == "approved"
            && s.paymentMethod == Some("free") && s.paidAt == Some(env.now)
            && after.payments == t.payments)
      && (!IsFree(form, s.totalAmount) ==>
            && s.status == "pending_payment" && s.paymentStatus == "pending"
            && s.paymentMethod == req.paymentMethod && s.paidAt.None?
            && after.payments == t.payments + [r.value.invoice.value]
            && IsPending(r.value.invoice.value)
            && r.value.invoice.value.submissionId == s.id
            && FormTier(form, req.pricingTierId).Some?
            && r.value.invoice.value.amount == FormTier(form, req.pricingTierId).value.price)
      && var (attribution, rewards) := ProcessAffiliate(form, req.data, amounts.value.total, t.rewards);
      && after.rewards == rewards
      && s.affiliateCode == attribution.code && s.affiliateRewardId == attribution.rewardId
      && s.affiliateCommission == attribution.commission
      && s.submissionNumber == GenerateSubmissionNumber(Records(t.submissions), env.year)
      && after.submissions == t.submissions + [s]
      && after.forms == t.forms && after.tiers == t.tiers && after.upsells == t.upsells
  {
    Pipeline(t, req, env, others, Rules)
  }

  /**
   * The submission service as written, run against status columns that
   * accept the values it writes: rules keyed by field id with presence read
   * from an attribute fields do not have, and a final load of a `payment`
   * relation the submission model does not define, which throws. Every run
   * fails, so the transaction never commits.
   */
  function SubmitFormAsWritten(t: Tables, req: SubmitRequest, env: Env, others: bool)
    : (r: Result<Submitted, SubmitError>)
    ensures r.Failure?
    ensures Pipeline(t, req, env, others, RulesAsWritten).Success? ==> r == Failure(RelationNotFound)
  {
    match Pipeline(t, req, env, others, RulesAsWritten)
    case Failure(e) => Failure(e)
    case Success(_) => Failure(RelationNotFound)
  }

  /**
   * The submission service as written against the migrated schema. The
   * free path inserts status "paid" and the paid path's invoice writes
   * "pending_payment", neither a value of the `status` column, so every run
   * that passes validation, pricing and invoicing fails at that write and
   * rolls back; the relation load is never reached.
   */
  function SubmitFormAsMigrated(t: Tables, req: SubmitRequest, env: Env, others: bool)
    : (r: Result<Submitted, SubmitError>)
    ensures r.Failure?
    ensures Pipeline(t, req, env, others, RulesAsWritten).Failure? ==>
      r == Pipeline(t, req, env, others, RulesAsWritten)
    ensures Pipeline(t, req, env, others, RulesAsWritten).Success? ==>
      && !StatusesStorable(Pipeline(t, req, env, others, RulesAsWritten).value.submission)
      && r == Failure(StatusRejected)
  {
    match Pipeline(t, req, env, others, RulesAsWritten)
    case Failure(e) => Failure(e)
    case Success(done) =>
      WrittenStatusRefused(done.submission);
      Failure(StatusRejected)
  }

  /** On a form without payment, a percentage referral earns nothing: the total is zero. */
  lemma NoPaymentNoPercentage(t: Tables, req: SubmitRequest, env: Env, others: bool)
    requires SubmitForm(t, req, env, others).Success?
    requires !FindActiveBySlug(t.forms, req.formSlug).value.enablePayment
    ensures var s := SubmitForm(t, req, env, others).value.submission;
      s.totalAmount == 0 &&
      (s.affiliateRewardId.Some? ==>
        var i := FindQualifying(t.rewards, s.affiliateCode.value, s.formId).value;
        t.rewards[i].commissionType == Percentage ==> s.affiliateCommission == Some(0.0))
  {
    var form := FindActiveBySlug(t.forms, req.formSlug).value;
    var s := SubmitForm(t, req, env, others).value.submission;
    assert s.totalAmount == 0;
    var attribution := ProcessAffiliate(form, req.data, 0, t.rewards).0;
    if s.affiliateRewardId.Some? {
      var i := FindQualifying(t.rewards, attribution.code.value, form.id).value;
      CommissionShape(t.rewards[i], 0, 0);
    }
  }

  /** A form that takes no payment and asks for nothing. */
  function OpenForm(): Form {
    Form("f1", None, "Pendaftaran", "daftar", None, true, false, false, [], [], [])
  }

  function Witness(): Env {
    Env(1700000000, 2024, None, None, "sub-1", "pay-1", Redirects("", ""), None)
  }

  /**
   * The same empty submission of a free form succeeds as intended, stored
   * "paid"; as written it fails at the status write, and, were that value
   * accepted, with the relation error.
   */
  lemma FreeSubmissionWitness()
    ensures var t := Tables([OpenForm()], [], [], [], [], []);
      var req := SubmitRequest("daftar", map[], None, None, None);
      && SubmitForm(t, req, Witness(), true).Success?
      && SubmitForm(t, req, Witness(), true).value.submission.status == "paid"
      && SubmitFormAsWritten(t, req, Witness(), true) == Failure(RelationNotFound)
      && SubmitFormAsMigrated(t, req, Witness(), true) == Failure(StatusRejected)
  {
    var t := Tables([OpenForm()], [], [], [], [], []);
    var req := SubmitRequest("daftar", map[], None, None, None);
    assert FindActiveBySlug(t.forms, "daftar") == Some(OpenForm());
    assert Rules([]) == [];
    assert RulesAsWritten([]) == [];
  }

  /** The payment block of the public response. */
  datatype PaymentBlock = PaymentBlock(id: string, invoiceUrl: string, amount: Cents, expiredAt: Option<int>)

  const SubmittedMessage := "Form submitted successfully."
  const AwaitingPaymentMessage := "Form submitted successfully. Please complete payment."

  datatype StoreBody = StoreBody(message: string, submission: SubmissionView, payment: Option<PaymentBlock>)

  /**
   * The public submit endpoint over the intended service: 201 with the
   * rendered submission, and a payment block exactly when the submission
   * awaits payment and has a payment; a failure answers with its status.
   */
  function StoreEndpoint(t: Tables, req: SubmitRequest, env: Env, others: bool)
    : (r: (int, Option<StoreBody>, Tables))
    ensures SubmitForm(t, req, env, others).Failure? ==>
      r == (ErrorStatus(SubmitForm(t, req, env, others).error), None, t)
    ensures SubmitForm(t, req, env, others).Success? ==>
      var done := SubmitForm(t, req, env, others).value;
      && r.0 == Created && r.1.Some? && r.2 == done.tables
      && r.1.value.submission == Render(done.submission)
      && (r.1.value.payment.Some? <==> done.invoice.Some?)
      && (r.1.value.payment.Some? ==>
            r.1.value.payment.value.invoiceUrl == done.invoice.value.invoiceUrl &&
            r.1.value.payment.value.amount == done.invoice.value.amount)
  {
    match SubmitForm(t, req, env, others)
    case Failure(e) => (ErrorStatus(e), None, t)
    case Success(done) =>
      var s := done.submission;
      if s.status == "pending_payment" && done.invoice.Some? then
        var p := done.invoice.value;
        (Created, Some(StoreBody(AwaitingPaymentMessage, Render(s),
                                 Some(PaymentBlock(p.id, p.invoiceUrl, p.amount, p.expiredAt)))), done.tables)
      else
        (Created, Some(StoreBody(SubmittedMessage, Render(s), None)), done.tables)
  }
}
