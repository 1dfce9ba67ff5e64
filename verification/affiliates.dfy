/**
 * The affiliate-reward ledger: which reward a referral code names on a form,
 * the commission it earns on a submission, how the reward's counters grow,
 * the admin approve/reject transitions, creation with per-form unique
 * codes, and the public code check.
 */
module Affiliates {
  import opened Wrappers
  import opened Text
  import opened Money
  import opened Seqs
  import opened Schema
  import opened FormView
  import opened Http

  datatype RewardStatus = Pending | Approved | Rejected

  datatype CommissionType = Percentage | Fixed

  /**
   * One row of `affiliate_rewards`. `commissionValue` is a `decimal(12,2)`:
   * a percentage (1050 means 10.50 %) or a fixed amount, in hundredths.
   * `totalEarned` is a `decimal(12,2)` too: each commission is added to it
   * and the sum stored rounded half away from zero to whole hundredths.
   */
  datatype AffiliateReward = AffiliateReward(
    id: string,
    formId: string,
    userId: Option<string>,
    code: string,
    commissionType: CommissionType,
    commissionValue: Cents,
    totalEarned: real,
    totalReferrals: int,
    isActive: bool,
    status: RewardStatus,
    rejectionReason: Option<string>,
    approvedAt: Option<int>,
    approvedBy: Option<string>)

  /** The lookup shared by attribution, the code rule and `verify`: this code, this form, active, approved. */
  predicate Qualifies(r: AffiliateReward, code: string, formId: string) {
    r.code == code && r.formId == formId && r.isActive && r.status == Approved
  }

  /** The first qualifying reward in table order (`->first()`). */
  function FindQualifying(rewards: seq<AffiliateReward>, code: string, formId: string): (r: Option<nat>)
    ensures r.Some? ==> r.value < |rewards| && Qualifies(rewards[r.value], code, formId)
    ensures r.Some? ==> forall j :: 0 <= j < r.value ==> !Qualifies(rewards[j], code, formId)
    ensures r.None? <==> forall j :: 0 <= j < |rewards| ==> !Qualifies(rewards[j], code, formId)
  {
    FirstIndex(rewards, (x: AffiliateReward) => Qualifies(x, code, formId))
  }

  /**
   * The commission a reward earns on a total, in hundredths: the percentage
   * of the total for a percentage reward, the fixed value otherwise. The
   * division by 100 is exact; nothing is rounded.
   */
  function Commission(r: AffiliateReward, total: Cents): real {
    if r.commissionType == Percentage then (total * r.commissionValue) as real / 10000.0
    else r.commissionValue as real
  }

  /** A percentage commission scales with the total; a fixed one ignores it. */
  lemma CommissionShape(r: AffiliateReward, t1: Cents, t2: Cents)
    ensures r.commissionType == Fixed ==> Commission(r, t1) == Commission(r, t2)
    ensures r.commissionType == Percentage && r.commissionValue >= 0 && t1 <= t2 ==>
      Commission(r, t1) <= Commission(r, t2)
    ensures r.commissionType == Percentage ==> (Commission(r, t1) == 0.0 <== t1 == 0)
    ensures r.commissionType == Percentage ==>
      Commission(r, t1 + t2) == Commission(r, t1) + Commission(r, t2)
  {
    if r.commissionType == Percentage && r.commissionValue >= 0 && t1 <= t2 {
      assert t1 * r.commissionValue <= t2 * r.commissionValue by {
        MulMono(t1, t2, r.commissionValue);
      }
    }
    assert (t1 + t2) * r.commissionValue == t1 * r.commissionValue + t2 * r.commissionValue;
  }

  lemma MulMono(a: int, b: int, c: int)
    requires a <= b && c >= 0
    ensures a * c <= b * c
  {
  }

  /** What a submission records about its referral code. */
  datatype Attribution = Attribution(code: Option<string>, rewardId: Option<string>, commission: Option<real>)

  const NoAttribution := Attribution(None, None, None)

  /**
   * The reward after one more referral worth `commission`: the `increment`
   * adds the exact commission and the column keeps the sum to hundredths.
   */
  function Credit(r: AffiliateReward, commission: real): AffiliateReward {
    r.(totalReferrals := r.totalReferrals + 1, totalEarned := RoundHalfAway(r.totalEarned + commission) as real)
  }

  /**
   * Attribution of one submission. Only a form with referral enabled reads
   * `data.affiliate_code`; a missing or false-y code records nothing; a code
   * naming no qualifying reward is recorded on its own; a qualifying reward
   * gains one referral and the commission on `total`.
   */
  function ProcessAffiliate(form: Form, data: map<string, string>, total: Cents, rewards: seq<AffiliateReward>)
    : (r: (Attribution, seq<AffiliateReward>))
    ensures |r.1| == |rewards|
    ensures r.0.code.Some? <==>
      HasAffiliateField(form) && AffiliateFieldName in data && Truthy(data[AffiliateFieldName])
    ensures r.0.code.Some? ==> r.0.code.value == data[AffiliateFieldName]
    ensures r.0.rewardId.Some? <==>
      r.0.code.Some? && exists j :: 0 <= j < |rewards| && Qualifies(rewards[j], r.0.code.value, form.id)
    ensures r.0.rewardId.None? ==> r.0.commission.None? && r.1 == rewards
    ensures r.0.rewardId.Some? ==>
      var i := FindQualifying(rewards, r.0.code.value, form.id).value;
      && r.0.rewardId == Some(rewards[i].id)
      && r.0.commission == Some(Commission(rewards[i], total))
      && r.1[i].totalReferrals == rewards[i].totalReferrals + 1
      && r.1[i].totalEarned == RoundHalfAway(rewards[i].totalEarned + Commission(rewards[i], total)) as real
      && r.1[i].totalEarned == r.1[i].totalEarned.Floor as real
      && -0.5 <= r.1[i].totalEarned - rewards[i].totalEarned - Commission(rewards[i], total) <= 0.5
      && r.1[i] == rewards[i].(totalReferrals := r.1[i].totalReferrals, totalEarned := r.1[i].totalEarned)
      && forall j :: 0 <= j < |rewards| && j != i ==> r.1[j] == rewards[j]
  {
    if !HasAffiliateField(form) then (NoAttribution, rewards)
    else
      var code := Lookup(data, AffiliateFieldName);
      if code.None? || !Truthy(code.value) then (NoAttribution, rewards)
      else
        match FindQualifying(rewards, code.value, form.id)
        case None => (Attribution(code, None, None), rewards)
        case Some(i) =>
          var c := Commission(rewards[i], total);
          (Attribution(code, Some(rewards[i].id), Some(c)), rewards[i := Credit(rewards[i], c)])
  }

  /** The active, approved 10 % reward of the referral feature's witnesses. */
  function TenPercent(formId: string): AffiliateReward {
    AffiliateReward("r1", formId, Some("u1"), "REF10", Percentage, 1000, 0.0, 0, true, Approved, None, None, None)
  }

  /** 10 % of 100000.00 earns 10000.00; two such referrals leave 20000.00 earned over 2 referrals. */
  lemma TwoReferralsExample(form: Form)
    requires form.enableAffiliate
    ensures var data := map[AffiliateFieldName := "REF10"];
      var first := ProcessAffiliate(form, data, 10000000, [TenPercent(form.id)]);
      var second := ProcessAffiliate(form, data, 10000000, first.1);
      && first.0.commission == Some(1000000.0)
      && second.1[0].totalEarned == 2000000.0
      && second.1[0].totalReferrals == 2
  {
    var data := map[AffiliateFieldName := "REF10"];
    assert Truthy("REF10") by { assert "REF10"[0] != "0"[0]; }
    assert Qualifies(TenPercent(form.id), "REF10", form.id);
    var first := ProcessAffiliate(form, data, 10000000, [TenPercent(form.id)]);
    RoundWhole(1000000);
    assert first.1 == [Credit(TenPercent(form.id), 1000000.0)];
    assert Qualifies(first.1[0], "REF10", form.id);
    RoundWhole(2000000);
  }

  /**
   * A 7.50 % reward on 12345.67 owes 925.92525; the submission records that
   * commission, but the reward's `total_earned` keeps 925.93.
   */
  lemma RoundedIncrementExample(form: Form)
    requires form.enableAffiliate
    ensures var reward := TenPercent(form.id).(commissionValue := 750);
      var r := ProcessAffiliate(form, map[AffiliateFieldName := "REF10"], 1234567, [reward]);
      && r.0.commission == Some(92592.525)
      && r.1[0].totalEarned == 92593.0
  {
    var reward := TenPercent(form.id).(commissionValue := 750);
    assert Truthy("REF10") by { assert "REF10"[0] != "0"[0]; }
    assert Qualifies(reward, "REF10", form.id);
    assert Commission(reward, 1234567) == 92592.525;
    assert RoundHalfAway(0.0 + 92592.525) == 92593;
  }

  /** The first reward with this primary key (`findOrFail`). */
  function FindById(rewards: seq<AffiliateReward>, id: string): (r: Option<nat>)
    ensures r.Some? ==> r.value < |rewards| && rewards[r.value].id == id
    ensures r.None? <==> forall j :: 0 <= j < |rewards| ==> rewards[j].id != id
  {
    FirstIndex(rewards, (x: AffiliateReward) => x.id == id)
  }

  /**
   * Admin approval: a missing reward is 404, an approved one 422; otherwise
   * the reward becomes approved at `now` by `admin`, its rejection reason is
   * cleared, and its active flag and everything else stay as they were.
   */
  function Approve(rewards: seq<AffiliateReward>, id: string, now: int, admin: Option<string>)
    : (r: Result<seq<AffiliateReward>, int>)
    ensures FindById(rewards, id).None? ==> r == Failure(NotFound)
    ensures FindById(rewards, id).Some? ==>
      var i := FindById(rewards, id).value;
      && (r.Failure? <==> rewards[i].status == Approved)
      && (r.Failure? ==> r.error == Unprocessable)
      && (r.Success? ==>
          && |r.value| == |rewards|
          && r.value[i].status == Approved
          && r.value[i].approvedAt == Some(now)
          && r.value[i].approvedBy == admin
          && r.value[i].rejectionReason.None?
          && r.value[i].isActive == rewards[i].isActive
          && r.value[i].code == rewards[i].code && r.value[i].formId == rewards[i].formId
          && r.value[i].totalEarned == rewards[i].totalEarned
          && r.value[i].totalReferrals == rewards[i].totalReferrals
          && forall j :: 0 <= j < |rewards| && j != i ==> r.value[j] == rewards[j])
  {
    match FindById(rewards, id)
    case None => Failure(NotFound)
    case Some(i) =>
      if rewards[i].status == Approved then Failure(Unprocessable)
      else Success(rewards[i := rewards[i].(status := Approved, approvedAt := Some(now), approvedBy := admin, rejectionReason := None)])
  }

  /** The `rejection_reason` rule: present, not blank, and at most 500 characters. */
  predicate ReasonAccepted(reason: string) {
    |Trim(reason)| > 0 && |reason| <= 500
  }

  /**
   * Admin rejection: a reason the rule refuses is 422 before any lookup, a
   * missing reward is 404, a rejected one 422; otherwise the reward becomes
   * rejected with the given reason, records `admin`, and is deactivated;
   * its approval time and counters stay as they were.
   */
  function Reject(rewards: seq<AffiliateReward>, id: string, reason: string, admin: Option<string>)
    : (r: Result<seq<AffiliateReward>, int>)
    ensures !ReasonAccepted(reason) ==> r == Failure(Unprocessable)
    ensures ReasonAccepted(reason) && FindById(rewards, id).None? ==> r == Failure(NotFound)
    ensures ReasonAccepted(reason) && FindById(rewards, id).Some? ==>
      var i := FindById(rewards, id).value;
      && (r.Failure? <==> rewards[i].status == Rejected)
      && (r.Failure? ==> r.error == Unprocessable)
      && (r.Success? ==>
          && |r.value| == |rewards|
          && r.value[i].status == Rejected
          && r.value[i].rejectionReason == Some(reason)
          && r.value[i].approvedBy == admin
          && !r.value[i].isActive
          && r.value[i].approvedAt == rewards[i].approvedAt
          && r.value[i].code == rewards[i].code && r.value[i].formId == rewards[i].formId
          && r.value[i].totalEarned == rewards[i].totalEarned
          && r.value[i].totalReferrals == rewards[i].totalReferrals
          && forall j :: 0 <= j < |rewards| && j != i ==> r.value[j] == rewards[j])
  {
    if !ReasonAccepted(reason) then Failure(Unprocessable)
    else match FindById(rewards, id)
    case None => Failure(NotFound)
    case Some(i) =>
      if rewards[i].status == Rejected then Failure(Unprocessable)
      else Success(rewards[i := rewards[i].(status := Rejected, rejectionReason := Some(reason), approvedBy := admin, isActive := false)])
  }

  /**
   * Approval as the controller is written. The update goes through the
   * reward's mass-assignment list, which names none of the four columns it
   * writes, so no row changes; the response then loads an `approvedBy`
   * relation the reward model does not define, which throws. The result is
   * the status code with the table as left behind.
   */
  function ApproveAsWritten(rewards: seq<AffiliateReward>, id: string, now: int, admin: Option<string>)
    : (r: (int, seq<AffiliateReward>))
    ensures r.1 == rewards
    ensures r.0 in {NotFound, Unprocessable, ServerError}
    ensures r.0 == NotFound <==> FindById(rewards, id).None?
    ensures r.0 == Unprocessable <==> FindById(rewards, id).Some? && rewards[FindById(rewards, id).value].status == Approved
  {
    match FindById(rewards, id)
    case None => (NotFound, rewards)
    case Some(i) =>
      if rewards[i].status == Approved then (Unprocessable, rewards)
      else (ServerError, rewards)
  }

  /**
   * Rejection as the controller is written: of the four columns it writes
   * only `is_active` is mass-assignable, so the reward is deactivated but
   * keeps its status, reason and approver; the response then fails on the
   * undefined `approvedBy` relation. Nothing rolls the deactivation back.
   */
  function RejectAsWritten(rewards: seq<AffiliateReward>, id: string, reason: string, admin: Option<string>)
    : (r: (int, seq<AffiliateReward>))
    ensures r.0 in {NotFound, Unprocessable, ServerError}
    ensures r.0 != ServerError ==> r.1 == rewards
    ensures !ReasonAccepted(reason) ==> r.0 == Unprocessable
    ensures ReasonAccepted(reason) ==> (r.0 == NotFound <==> FindById(rewards, id).None?)
    ensures ReasonAccepted(reason) && FindById(rewards, id).Some? ==>
      var i := FindById(rewards, id).value;
      && (r.0 == Unprocessable <==> rewards[i].status == Rejected)
      && (r.0 == ServerError ==>
          && |r.1| == |rewards|
          && !r.1[i].isActive
          && r.1[i].status == rewards[i].status
          && r.1[i].rejectionReason == rewards[i].rejectionReason
          && r.1[i].approvedBy == rewards[i].approvedBy
          && r.1[i].approvedAt == rewards[i].approvedAt
          && r.1[i].code == rewards[i].code && r.1[i].formId == rewards[i].formId
          && forall j :: 0 <= j < |rewards| && j != i ==> r.1[j] == rewards[j])
  {
    if !ReasonAccepted(reason) then (Unprocessable, rewards)
    else match FindById(rewards, id)
    case None => (NotFound, rewards)
    case Some(i) =>
      if rewards[i].status == Rejected then (Unprocessable, rewards)
      else (ServerError, rewards[i := rewards[i].(isActive := false)])
  }

  /**
   * The as-written approval refuses exactly what the corrected one refuses,
   * with the same code, and answers 500 exactly where the corrected one
   * succeeds.
   */
  lemma ApproveAsWrittenAgrees(rewards: seq<AffiliateReward>, id: string, now: int, admin: Option<string>)
    ensures Approve(rewards, id, now, admin).Success? <==> ApproveAsWritten(rewards, id, now, admin).0 == ServerError
    ensures Approve(rewards, id, now, admin).Failure? ==>
      ApproveAsWritten(rewards, id, now, admin).0 == Approve(rewards, id, now, admin).error
  {
  }

  /**
   * The as-written rejection answers 500 exactly where the corrected one
   * succeeds, refuses the rest with the same code, and leaves every active
   * flag as the corrected one would.
   */
  lemma RejectAsWrittenAgrees(rewards: seq<AffiliateReward>, id: string, reason: string, admin: Option<string>)
    ensures Reject(rewards, id, reason, admin).Success? <==> RejectAsWritten(rewards, id, reason, admin).0 == ServerError
    ensures Reject(rewards, id, reason, admin).Failure? ==>
      RejectAsWritten(rewards, id, reason, admin).0 == Reject(rewards, id, reason, admin).error
    ensures Reject(rewards, id, reason, admin).Success? ==>
      var after := RejectAsWritten(rewards, id, reason, admin).1;
      && |after| == |Reject(rewards, id, reason, admin).value|
      && forall j :: 0 <= j < |after| ==> after[j].isActive == Reject(rewards, id, reason, admin).value[j].isActive
  {
  }

  /**
   * As written a pending reward can never be approved: the first attempt is
   * 500 and leaves it pending, and so is the second, which the corrected
   * approval refuses with 422.
   */
  lemma {:induction false} ApproveLeavesPendingAsWritten(rewards: seq<AffiliateReward>, id: string, now: int,
                                                         later: int, admin: Option<string>)
    requires FindById(rewards, id).Some? && rewards[FindById(rewards, id).value].status == Pending
    ensures ApproveAsWritten(rewards, id, now, admin).0 == ServerError
    ensures ApproveAsWritten(rewards, id, now, admin).1[FindById(rewards, id).value].status == Pending
    ensures ApproveAsWritten(ApproveAsWritten(rewards, id, now, admin).1, id, later, admin).0 == ServerError
    ensures Approve(Approve(rewards, id, now, admin).value, id, later, admin) == Failure(Unprocessable)
  {
    ApproveTwiceRefused(rewards, id, now, later, admin);
  }

  /** Approving is not repeatable: a second approval of the same reward is refused with 422. */
  lemma {:induction false} ApproveTwiceRefused(rewards: seq<AffiliateReward>, id: string, now: int, later: int, admin: Option<string>)
    requires Approve(rewards, id, now, admin).Success?
    ensures Approve(Approve(rewards, id, now, admin).value, id, later, admin) == Failure(Unprocessable)
  {
    var i := FindById(rewards, id).value;
    var after := Approve(rewards, id, now, admin).value;
    assert FindById(after, id) == Some(i) by {
      assert forall j :: 0 <= j < i ==> after[j].id == rewards[j].id;
      FirstIndexIsFirst(rewards, id, i);
    }
  }

  /** `i` is the first index with `id` whenever no earlier row has it. */
  lemma FirstIndexIsFirst(rewards: seq<AffiliateReward>, id: string, i: nat)
    requires FindById(rewards, id) == Some(i)
    ensures forall j :: 0 <= j < i ==> rewards[j].id != id
  {
    assert FirstIndex(rewards, (x: AffiliateReward) => x.id == id) == Some(i);
  }

  /**
   * Approval makes a reward usable exactly when it was active; rejection
   * makes it unusable for every code on every form.
   */
  lemma TransitionsAndQualification(rewards: seq<AffiliateReward>, id: string, now: int, reason: string,
                                    admin: Option<string>, code: string, formId: string)
    ensures Approve(rewards, id, now, admin).Success? ==>
      var i := FindById(rewards, id).value;
      Qualifies(Approve(rewards, id, now, admin).value[i], code, formId) <==>
        rewards[i].isActive && rewards[i].code == code && rewards[i].formId == formId
    ensures Reject(rewards, id, reason, admin).Success? ==>
      !Qualifies(Reject(rewards, id, reason, admin).value[FindById(rewards, id).value], code, formId)
  {
  }

  /** No two rewards of one form share a code (the `(form_id, affiliate_code)` unique key). */
  predicate UniquePerForm(rewards: seq<AffiliateReward>) {
    forall i, j :: 0 <= i < j < |rewards| ==>
      !(rewards[i].formId == rewards[j].formId && rewards[i].code == rewards[j].code)
  }

  predicate CodeTaken(rewards: seq<AffiliateReward>, formId: string, code: string) {
    exists j :: 0 <= j < |rewards| && rewards[j].formId == formId && rewards[j].code == code
  }

  /** Every draw before the `k`-th names a code already used on the form. */
  predicate DrawsBeforeTaken(rewards: seq<AffiliateReward>, formId: string, draws: seq<string>, k: nat)
    requires k <= |draws|
  {
    forall m :: 0 <= m < k ==> CodeTaken(rewards, formId, ToUpper(draws[m]))
  }

  /**
   * `strtoupper(Str::random(8))` retried until unused on the form. The
   * random draws are the sequence `draws`; None means every draw was taken.
   */
  function GenerateUniqueCode(rewards: seq<AffiliateReward>, formId: string, draws: seq<string>): (r: Option<string>)
    ensures r.Some? ==> !CodeTaken(rewards, formId, r.value)
    ensures r.Some? ==>
      exists k :: 0 <= k < |draws| && r.value == ToUpper(draws[k]) && DrawsBeforeTaken(rewards, formId, draws, k)
    ensures r.None? <==> forall k :: 0 <= k < |draws| ==> CodeTaken(rewards, formId, ToUpper(draws[k]))
  {
    match FirstIndex(draws, (d: string) => !CodeTaken(rewards, formId, ToUpper(d)))
    case None => None
    case Some(k) => Some(ToUpper(draws[k]))
  }

  /** The validated body of a creation request. */
  datatype StoreRequest = StoreRequest(
    formId: string,
    userId: string,
    code: Option<string>,
    commissionType: CommissionType,
    commissionValue: Cents,
    isActive: Option<bool>)

  datatype StoreError =
    | CodeExists          // 422: the code is already used on this form
    | DrawsExhausted      // every random draw was taken: the source keeps drawing

  /** The code a creation request ends up with: its own if truthy, else a generated one. */
  function RequestedCode(rewards: seq<AffiliateReward>, req: StoreRequest, draws: seq<string>): Option<string> {
    if req.code.Some? && Truthy(req.code.value) then req.code
    else GenerateUniqueCode(rewards, req.formId, draws)
  }

  /**
   * Creation: a false-y code is replaced by a generated one; a code already
   * used on the form is refused; otherwise a pending reward with zero
   * totals is appended, active unless the request says otherwise.
   */
  function Store(rewards: seq<AffiliateReward>, req: StoreRequest, draws: seq<string>, newId: string)
    : (r: Result<seq<AffiliateReward>, StoreError>)
    ensures RequestedCode(rewards, req, draws).None? <==> r == Failure(DrawsExhausted)
    ensures r == Failure(CodeExists) <==>
      req.code.Some? && Truthy(req.code.value) && CodeTaken(rewards, req.formId, req.code.value)
    ensures r.Success? ==>
      var code := RequestedCode(rewards, req, draws).value;
      && |r.value| == |rewards| + 1
      && r.value[..|rewards|] == rewards
      && r.value[|rewards|] == AffiliateReward(newId, req.formId, Some(req.userId), code,
           req.commissionType, req.commissionValue, 0.0, 0, req.isActive.GetOr(true),
           Pending, None, None, None)
      && !CodeTaken(rewards, req.formId, code)
  {
    match RequestedCode(rewards, req, draws)
    case None => Failure(DrawsExhausted)
    case Some(code) =>
      if CodeTaken(rewards, req.formId, code) then Failure(CodeExists)
      else
        var reward := AffiliateReward(newId, req.formId, Some(req.userId), code,
          req.commissionType, req.commissionValue, 0.0, 0, req.isActive.GetOr(true),
          Pending, None, None, None);
        assert (rewards + [reward])[..|rewards|] == rewards;
        Success(rewards + [reward])
  }

  /** Creation keeps codes unique per form. */
  lemma {:induction false} StoreKeepsUnique(rewards: seq<AffiliateReward>, req: StoreRequest, draws: seq<string>, newId: string)
    requires UniquePerForm(rewards)
    requires Store(rewards, req, draws, newId).Success?
    ensures UniquePerForm(Store(rewards, req, draws, newId).value)
  {
    var after := Store(rewards, req, draws, newId).value;
    var n := |rewards|;
    forall i, j | 0 <= i < j < |after|
      ensures !(after[i].formId == after[j].formId && after[i].code == after[j].code)
    {
      if j == n {
        assert after[i] == rewards[i];
      } else {
        assert after[i] == rewards[i] && after[j] == rewards[j];
      }
    }
  }

  /** Attribution, approval and rejection never touch codes or forms, so they keep codes unique. */
  lemma {:induction false} TransitionsKeepUnique(rewards: seq<AffiliateReward>, form: Form, data: map<string, string>,
                                                 total: Cents, id: string, now: int, reason: string, admin: Option<string>)
    requires UniquePerForm(rewards)
    ensures UniquePerForm(ProcessAffiliate(form, data, total, rewards).1)
    ensures Approve(rewards, id, now, admin).Success? ==> UniquePerForm(Approve(rewards, id, now, admin).value)
    ensures Reject(rewards, id, reason, admin).Success? ==> UniquePerForm(Reject(rewards, id, reason, admin).value)
  {
    AttributionKeepsUnique(rewards, form, data, total);
    ApproveKeepsUnique(rewards, id, now, admin);
    RejectKeepsUnique(rewards, id, reason, admin);
  }

  lemma AttributionKeepsUnique(rewards: seq<AffiliateReward>, form: Form, data: map<string, string>, total: Cents)
    requires UniquePerForm(rewards)
    ensures UniquePerForm(ProcessAffiliate(form, data, total, rewards).1)
  {
    SameKeysUnique(rewards, ProcessAffiliate(form, data, total, rewards).1);
  }

  lemma ApproveKeepsUnique(rewards: seq<AffiliateReward>, id: string, now: int, admin: Option<string>)
    requires UniquePerForm(rewards)
    ensures Approve(rewards, id, now, admin).Success? ==> UniquePerForm(Approve(rewards, id, now, admin).value)
  {
    if Approve(rewards, id, now, admin).Success? {
      SameKeysUnique(rewards, Approve(rewards, id, now, admin).value);
    }
  }

  lemma RejectKeepsUnique(rewards: seq<AffiliateReward>, id: string, reason: string, admin: Option<string>)
    requires UniquePerForm(rewards)
    ensures Reject(rewards, id, reason, admin).Success? ==> UniquePerForm(Reject(rewards, id, reason, admin).value)
  {
    if Reject(rewards, id, reason, admin).Success? {
      SameKeysUnique(rewards, Reject(rewards, id, reason, admin).value);
    }
  }

  lemma SameKeysUnique(a: seq<AffiliateReward>, b: seq<AffiliateReward>)
    requires UniquePerForm(a)
    requires |a| == |b|
    requires forall j :: 0 <= j < |a| ==> a[j].formId == b[j].formId && a[j].code == b[j].code
    ensures UniquePerForm(b)
  {
  }

  /** What `verify` reports for a valid code. */
  datatype Verification = Verification(
    code: string,
    affiliateName: string,
    commissionType: CommissionType,
    commissionValue: Cents,
    formId: string)

  /**
   * The public code check: 404 unless the code names an active, approved
   * reward of the form; the owner's name falls back to "Partner".
   */
  function Verify(rewards: seq<AffiliateReward>, userNames: map<string, string>, code: string, formId: string)
    : (r: Result<Verification, int>)
    ensures r.Failure? <==> forall j :: 0 <= j < |rewards| ==> !Qualifies(rewards[j], code, formId)
    ensures r.Failure? ==> r.error == NotFound
    ensures r.Success? ==>
      var i := FindQualifying(rewards, code, formId).value;
      && r.value.code == code && r.value.formId == formId
      && r.value.commissionType == rewards[i].commissionType
      && r.value.commissionValue == rewards[i].commissionValue
      && r.value.affiliateName ==
         (if rewards[i].userId.Some? && rewards[i].userId.value in userNames
          then userNames[rewards[i].userId.value] else "Partner")
  {
    match FindQualifying(rewards, code, formId)
    case None => Failure(NotFound)
    case Some(i) =>
      var owner := rewards[i].userId;
      var name := if owner.Some? && owner.value in userNames then userNames[owner.value] else "Partner";
      Success(Verification(code, name, rewards[i].commissionType, rewards[i].commissionValue, formId))
  }

  /**
   * `verify` accepts a truthy code on a referral-enabled form exactly when a
   * submission carrying that code would be attributed to a reward.
   */
  lemma VerifyAgreesWithAttribution(rewards: seq<AffiliateReward>, userNames: map<string, string>,
                                    form: Form, data: map<string, string>, total: Cents)
    requires form.enableAffiliate
    requires AffiliateFieldName in data && Truthy(data[AffiliateFieldName])
    ensures Verify(rewards, userNames, data[AffiliateFieldName], form.id).Success? <==>
      ProcessAffiliate(form, data, total, rewards).0.rewardId.Some?
  {
  }
}
