/**
 * One referral reward's statistics: its counters, the referral commission
 * of its submissions split by payment status, and the conversion rate.
 */
module AffiliateStatistics {
  import opened Wrappers
  import opened Money
  import opened Seqs
  import opened Http
  import opened Affiliates
  import opened Submissions

  datatype RewardStatistics = RewardStatistics(
    code: string,
    totalReferrals: int,
    totalEarned: real,
    pendingEarned: Cents,
    paidEarned: Cents,
    failedEarned: Cents,
    conversionRate: real)

  /** The submissions referred through reward `id` with payment status `status`. */
  function ReferredWith(id: string, status: string): Submission -> bool {
    (s: Submission) => s.affiliateRewardId == Some(id) && s.paymentStatus == status
  }

  function Referred(id: string): Submission -> bool {
    (s: Submission) => s.affiliateRewardId == Some(id)
  }

  function AffiliateAmount(s: Submission): int {
    s.affiliateAmount
  }

  /**
   * `rate` is the conversion rate in percent of `paid` paid referred
   * submissions over `referrals` counted referrals, and 0 when there are
   * no referrals.
   */
  predicate IsRate(rate: real, paid: nat, referrals: int) {
    && (referrals <= 0 ==> rate == 0.0)
    && (referrals > 0 ==> rate * referrals as real == paid as real * 100.0)
  }

  /** The conversion rate; PHP's float division is read as exact division. */
  function ConversionRate(paid: nat, referrals: int): (rate: real)
    ensures IsRate(rate, paid, referrals)
    ensures referrals > 0 && paid <= referrals ==> 0.0 <= rate <= 100.0
  {
    if referrals > 0 then paid as real / referrals as real * 100.0 else 0.0
  }

  /**
   * The statistics endpoint: 404 for an unknown reward; otherwise the
   * reward's counters, the sums of `affiliate_amount` over its pending,
   * paid and failed submissions, and the conversion rate.
   */
  function Statistics(rewards: seq<AffiliateReward>, subs: seq<Submission>, id: string)
    : (r: Result<RewardStatistics, int>)
    ensures r.Failure? <==> FindById(rewards, id).None?
    ensures r.Failure? ==> r.error == NotFound
    ensures r.Success? ==>
      var reward := rewards[FindById(rewards, id).value];
      && r.value.totalReferrals == reward.totalReferrals && r.value.totalEarned == reward.totalEarned
      && r.value.pendingEarned == IntSumWhere(subs, ReferredWith(id, "pending"), AffiliateAmount)
      && r.value.paidEarned == IntSumWhere(subs, ReferredWith(id, "paid"), AffiliateAmount)
      && r.value.failedEarned == IntSumWhere(subs, ReferredWith(id, "failed"), AffiliateAmount)
      && IsRate(r.value.conversionRate, Count(subs, ReferredWith(id, "paid")), reward.totalReferrals)
  {
    match FindById(rewards, id)
    case None => Failure(NotFound)
    case Some(i) => Success(StatisticsOf(rewards[i], subs, id))
  }

  /** The statistics of a found reward. */
  function StatisticsOf(reward: AffiliateReward, subs: seq<Submission>, id: string): (st: RewardStatistics)
    ensures st.totalReferrals == reward.totalReferrals && st.totalEarned == reward.totalEarned
    ensures st.pendingEarned == IntSumWhere(subs, ReferredWith(id, "pending"), AffiliateAmount)
    ensures st.paidEarned == IntSumWhere(subs, ReferredWith(id, "paid"), AffiliateAmount)
    ensures st.failedEarned == IntSumWhere(subs, ReferredWith(id, "failed"), AffiliateAmount)
    ensures IsRate(st.conversionRate, Count(subs, ReferredWith(id, "paid")), reward.totalReferrals)
  {
    RewardStatistics(
      reward.code, reward.totalReferrals, reward.totalEarned,
      IntSumWhere(subs, ReferredWith(id, "pending"), AffiliateAmount),
      IntSumWhere(subs, ReferredWith(id, "paid"), AffiliateAmount),
      IntSumWhere(subs, ReferredWith(id, "failed"), AffiliateAmount),
      ConversionRate(Count(subs, ReferredWith(id, "paid")), reward.totalReferrals))
  }

  /** With non-negative amounts, the paid share never exceeds what all referred submissions carry. */
  lemma PaidWithinReferred(subs: seq<Submission>, id: string)
    requires forall j :: 0 <= j < |subs| ==> subs[j].affiliateAmount >= 0
    ensures IntSumWhere(subs, ReferredWith(id, "paid"), AffiliateAmount) <=
            IntSumWhere(subs, Referred(id), AffiliateAmount)
  {
    IntSumMono(subs, ReferredWith(id, "paid"), Referred(id), AffiliateAmount);
  }

  /**
   * The submission service stores the commission under `affiliate_commission`
   * and leaves `affiliate_amount` at 0, so over such submissions every
   * earned sum is 0.
   */
  lemma ServiceAmountsAreZero(subs: seq<Submission>, id: string, status: string)
    requires forall j :: 0 <= j < |subs| ==> subs[j].affiliateAmount == 0
    ensures IntSumWhere(subs, ReferredWith(id, status), AffiliateAmount) == 0
  {
    IntSumZero(subs, ReferredWith(id, status), AffiliateAmount);
  }

  /** Three paid referrals out of four counted referrals convert at 75 %. */
  lemma ThreeOfFour()
    ensures ConversionRate(3, 4) == 75.0
  {
  }
}
