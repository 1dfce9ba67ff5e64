/**
 * Stored submissions: the record, the admin payment-status update, the
 * per-status statistics, and the resource rendering of a submission.
 */
module Submissions {
  import opened Wrappers
  import opened Text
  import opened Money
  import opened Seqs
  import opened Http

  /**
   * One submission. The first group are the model's declared attributes
   * (`name`, `email`, `phone`, the four `*_amount` columns, ...), followed by
   * the creation time and its calendar year; the last group are attributes
   * the submission service writes under names the model does not declare.
   * Statuses are the strings the code writes.
   */
  datatype Submission = Submission(
    id: string,
    formId: string,
    submissionNumber: string,
    name: Option<string>,
    email: Option<string>,
    phone: Option<string>,
    data: map<string, string>,
    pricingTierId: Option<string>,
    selectedUpsells: Option<seq<string>>,
    tierAmount: Cents,
    upsellsAmount: Cents,
    affiliateAmount: Cents,
    totalAmount: Cents,
    paymentStatus: string,
    paymentMethod: Option<string>,
    paidAt: Option<int>,
    affiliateRewardId: Option<string>,
    status: string,
    submittedAt: Option<int>,
    createdAt: int,
    createdYear: int,
    amount: Cents,
    upsellsSelected: Option<seq<string>>,
    affiliateCode: Option<string>,
    affiliateCommission: Option<real>,
    contactName: Option<string>,
    contactEmail: Option<string>,
    contactPhone: Option<string>,
    ipAddress: Option<string>,
    userAgent: Option<string>)

  /** The values of the `payment_status` column. */
  const PaymentStatuses: seq<string> := ["unpaid", "pending", "paid", "failed", "refunded"]

  /** The values of the `status` column. */
  const SubmissionStatuses: set<string> := {"pending", "approved", "rejected"}

  /** Whether the table's two enum columns accept this record's statuses; a write of any other value fails. */
  predicate StatusesStorable(s: Submission) {
    s.status in SubmissionStatuses && s.paymentStatus in PaymentStatuses
  }

  /** The statuses the services write on creation and invoicing are not values of the `status` column. */
  lemma WrittenStatusRefused(s: Submission)
    requires s.status in {"paid", "pending_payment"}
    ensures !StatusesStorable(s)
  {
  }

  /** The submission with this primary key (`findOrFail`). */
  function FindSubmission(subs: seq<Submission>, id: string): (r: Option<nat>)
    ensures r.Some? ==> r.value < |subs| && subs[r.value].id == id
    ensures r.Some? ==> forall j :: 0 <= j < r.value ==> subs[j].id != id
    ensures r.None? <==> forall j :: 0 <= j < |subs| ==> subs[j].id != id
  {
    FirstIndex(subs, (s: Submission) => s.id == id)
  }

  /**
   * The service's payment-status update: a missing submission is 404;
   * otherwise the status is set, `paid_at` is set to `now` only for "paid",
   * and nothing else of that submission or any other changes. The supplied
   * payment reference is dropped: it is neither mass-assignable nor a
   * column of the submissions table.
   */
  function UpdatePaymentStatus(subs: seq<Submission>, id: string, status: string,
                               reference: Option<string>, now: int)
    : (r: Result<(seq<Submission>, Submission), int>)
    ensures r.Failure? <==> FindSubmission(subs, id).None?
    ensures r.Failure? ==> r.error == NotFound
    ensures r.Success? ==>
      var i := FindSubmission(subs, id).value;
      var (after, s) := r.value;
      && |after| == |subs| && after[i] == s
      && (forall j :: 0 <= j < |subs| && j != i ==> after[j] == subs[j])
      && s.paymentStatus == status
      && s.paidAt == (if status == "paid" then Some(now) else subs[i].paidAt)
      && s == subs[i].(paymentStatus := s.paymentStatus, paidAt := s.paidAt)
  {
    match FindSubmission(subs, id)
    case None => Failure(NotFound)
    case Some(i) =>
      var prev := subs[i];
      var s := prev.(
        paymentStatus := status,
        paidAt := if status == "paid" then Some(now) else prev.paidAt);
      Success((subs[i := s], s))
  }

  /**
   * The admin endpoint: a status outside the column's values is refused
   * with 422 before any lookup; otherwise the service update runs.
   */
  function UpdatePaymentStatusEndpoint(subs: seq<Submission>, id: string, status: Option<string>,
                                       reference: Option<string>, now: int)
    : (r: Result<(seq<Submission>, Submission), int>)
    ensures (status.None? || status.value !in PaymentStatuses) ==> r == Failure(Unprocessable)
    ensures r.Success? ==>
      && status.Some? && status.value in PaymentStatuses
      && r == UpdatePaymentStatus(subs, id, status.value, reference, now)
  {
    if status.None? || status.value !in PaymentStatuses then Failure(Unprocessable)
    else UpdatePaymentStatus(subs, id, status.value, reference, now)
  }

  /** Through the endpoint, every stored payment status stays one of the column's values. */
  lemma EndpointKeepsStatusesValid(subs: seq<Submission>, id: string, status: Option<string>,
                                   reference: Option<string>, now: int)
    requires forall j :: 0 <= j < |subs| ==> subs[j].paymentStatus in PaymentStatuses
    ensures var r := UpdatePaymentStatusEndpoint(subs, id, status, reference, now);
      r.Success? ==> forall j :: 0 <= j < |r.value.0| ==> r.value.0[j].paymentStatus in PaymentStatuses
  {
  }

  /** The outcome does not depend on the payment reference: whatever is supplied, nothing records it. */
  lemma UpdateIgnoresReference(subs: seq<Submission>, id: string, status: string,
                               ref1: Option<string>, ref2: Option<string>, now: int)
    ensures UpdatePaymentStatus(subs, id, status, ref1, now) == UpdatePaymentStatus(subs, id, status, ref2, now)
  {
  }

  /** Repeating an update changes nothing more, except a "paid" update's time. */
  lemma UpdateTwice(subs: seq<Submission>, id: string, status: string, reference: Option<string>, now: int)
    requires UpdatePaymentStatus(subs, id, status, reference, now).Success?
    ensures var first := UpdatePaymentStatus(subs, id, status, reference, now).value.0;
      status != "paid" ==> UpdatePaymentStatus(first, id, status, reference, now).value.0 == first
  {
    var i := FindSubmission(subs, id).value;
    var first := UpdatePaymentStatus(subs, id, status, reference, now).value.0;
    assert forall j :: 0 <= j < i ==> first[j] == subs[j];
    assert FindSubmission(first, id) == Some(i);
  }

  datatype Statistics = Statistics(
    totalSubmissions: nat,
    paid: nat,
    unpaid: nat,
    pending: nat,
    failed: nat,
    totalRevenue: Cents,
    affiliateReferrals: nat,
    totalCommissions: real)

  function OfForm(formId: string): Submission -> bool {
    (s: Submission) => s.formId == formId
  }

  function WithPaymentStatus(status: string): Submission -> bool {
    (s: Submission) => s.paymentStatus == status
  }

  function Always(s: Submission): bool {
    true
  }

  function TotalAmount(s: Submission): int {
    s.totalAmount
  }

  function HasCode(s: Submission): bool {
    s.affiliateCode.Some?
  }

  function CommissionOrZero(s: Submission): real {
    s.affiliateCommission.GetOr(0.0)
  }

  /** The submissions statistics covers: one form's when a truthy form id is given, else all. */
  function Scope(subs: seq<Submission>, formId: Option<string>): (r: seq<Submission>)
    ensures formId.Some? && Truthy(formId.value) ==> r == Filter(subs, OfForm(formId.value))
    ensures !(formId.Some? && Truthy(formId.value)) ==> r == subs
  {
    if formId.Some? && Truthy(formId.value) then Filter(subs, OfForm(formId.value)) else subs
  }

  /**
   * Counts per payment status within the scope, the revenue of its paid
   * submissions, how many carry a referral code, and the sum of every
   * commission in the scope (SQL `SUM` skips nulls).
   */
  function SubmissionStatistics(subs: seq<Submission>, formId: Option<string>): (r: Statistics)
    ensures r.totalSubmissions == |Scope(subs, formId)|
    ensures formId.Some? && Truthy(formId.value) ==> r.totalSubmissions == Count(subs, OfForm(formId.value))
    ensures r.paid + r.unpaid + r.pending + r.failed <= r.totalSubmissions
    ensures r.paid == Count(Scope(subs, formId), WithPaymentStatus("paid"))
    ensures r.unpaid == Count(Scope(subs, formId), WithPaymentStatus("unpaid"))
    ensures r.pending == Count(Scope(subs, formId), WithPaymentStatus("pending"))
    ensures r.failed == Count(Scope(subs, formId), WithPaymentStatus("failed"))
    ensures r.totalRevenue == IntSumWhere(Scope(subs, formId), WithPaymentStatus("paid"), TotalAmount)
    ensures r.affiliateReferrals == Count(Scope(subs, formId), HasCode)
    ensures r.totalCommissions == SumWhere(Scope(subs, formId), Always, CommissionOrZero)
  {
    var scoped := Scope(subs, formId);
    StatusesPartition(scoped);
    Statistics(
      |scoped|,
      Count(scoped, WithPaymentStatus("paid")),
      Count(scoped, WithPaymentStatus("unpaid")),
      Count(scoped, WithPaymentStatus("pending")),
      Count(scoped, WithPaymentStatus("failed")),
      IntSumWhere(scoped, WithPaymentStatus("paid"), TotalAmount),
      Count(scoped, HasCode),
      SumWhere(scoped, Always, CommissionOrZero))
  }

  /** A status other than the four counted ones. */
  function Uncounted(s: Submission): bool {
    s.paymentStatus != "paid" && s.paymentStatus != "unpaid" &&
    s.paymentStatus != "pending" && s.paymentStatus != "failed"
  }

  /** Every submission is counted under exactly one status, or is uncounted (refunded and the rest). */
  lemma {:induction false} StatusesPartition(s: seq<Submission>)
    ensures Count(s, WithPaymentStatus("paid")) + Count(s, WithPaymentStatus("unpaid")) +
      Count(s, WithPaymentStatus("pending")) + Count(s, WithPaymentStatus("failed")) +
      Count(s, Uncounted) == |s|
  {
    if |s| > 0 {
      StatusesPartition(s[1..]);
    }
  }

  /** Revenue counts paid submissions only: changing any other submission leaves it unchanged. */
  lemma RevenueIgnoresUnpaid(subs: seq<Submission>, formId: Option<string>, i: nat, s: Submission)
    requires i < |subs| && subs[i].paymentStatus != "paid" && s.paymentStatus != "paid"
    requires s.formId == subs[i].formId
    ensures SubmissionStatistics(subs[i := s], formId).totalRevenue == SubmissionStatistics(subs, formId).totalRevenue
  {
    var after := subs[i := s];
    if formId.Some? && Truthy(formId.value) {
      FilterReplace(subs, OfForm(formId.value), i, s);
      var a := Filter(after, OfForm(formId.value));
      var b := Filter(subs, OfForm(formId.value));
      RevenuePointwise(a, b);
    } else {
      RevenuePointwise(after, subs);
    }
  }

  /** Sequences that differ only at unpaid submissions, position by position, have the same revenue. */
  lemma {:induction false} RevenuePointwise(a: seq<Submission>, b: seq<Submission>)
    requires |a| == |b|
    requires forall j :: 0 <= j < |a| ==>
      a[j] == b[j] || (a[j].paymentStatus != "paid" && b[j].paymentStatus != "paid")
    ensures IntSumWhere(a, WithPaymentStatus("paid"), TotalAmount) ==
      IntSumWhere(b, WithPaymentStatus("paid"), TotalAmount)
  {
    if |a| > 0 {
      assert forall j :: 1 <= j < |a| ==> a[1..][j - 1] == a[j] && b[1..][j - 1] == b[j];
      RevenuePointwise(a[1..], b[1..]);
    }
  }

  /** The resource view of a submission: amounts as two-decimal strings, the rest copied. */
  datatype SubmissionView = SubmissionView(
    id: string,
    formId: string,
    submissionNumber: string,
    name: Option<string>,
    email: Option<string>,
    phone: Option<string>,
    data: map<string, string>,
    pricingTierId: Option<string>,
    selectedUpsells: Option<seq<string>>,
    tierAmount: string,
    upsellsAmount: string,
    affiliateAmount: string,
    totalAmount: string,
    paymentStatus: string,
    paymentMethod: Option<string>,
    paidAt: Option<int>,
    affiliateRewardId: Option<string>,
    status: string,
    submittedAt: Option<int>)

  /**
   * The resource rendering: each amount reads back as the stored amount, a
   * zero amount shows as "0.00", and identifiers, contact columns, data and
   * statuses are passed through unchanged.
   */
  function Render(s: Submission): (v: SubmissionView)
    ensures ParseCents(v.tierAmount) == Some(s.tierAmount)
    ensures ParseCents(v.upsellsAmount) == Some(s.upsellsAmount)
    ensures ParseCents(v.affiliateAmount) == Some(s.affiliateAmount)
    ensures ParseCents(v.totalAmount) == Some(s.totalAmount)
    ensures s.totalAmount == 0 ==> v.totalAmount == "0.00"
    ensures v.id == s.id && v.formId == s.formId && v.submissionNumber == s.submissionNumber
    ensures v.name == s.name && v.email == s.email && v.phone == s.phone && v.data == s.data
    ensures v.paymentStatus == s.paymentStatus && v.status == s.status && v.paymentMethod == s.paymentMethod
    ensures v.pricingTierId == s.pricingTierId && v.selectedUpsells == s.selectedUpsells
    ensures v.paidAt == s.paidAt && v.affiliateRewardId == s.affiliateRewardId && v.submittedAt == s.submittedAt
  {
    RenderZero();
    SubmissionView(
      s.id, s.formId, s.submissionNumber, s.name, s.email, s.phone, s.data,
      s.pricingTierId, s.selectedUpsells,
      RenderStored(Some(s.tierAmount)), RenderStored(Some(s.upsellsAmount)),
      RenderStored(Some(s.affiliateAmount)), RenderStored(Some(s.totalAmount)),
      s.paymentStatus, s.paymentMethod, s.paidAt, s.affiliateRewardId, s.status, s.submittedAt)
  }
}
