# jalanpintar backend: a Dafny model of the form, payment and referral core

The backend serves registration forms. A form is made of sections and
fields. It may take payment, through pricing tiers with optional upsells
and an invoice from the payment provider, and it may accept referral codes
that credit an affiliate reward. This project models the logic at the
centre of that system as pure functions over immutable tables. Each table
is a `seq` of rows in storage order, so `->first()` is the first matching
row. Amounts are whole hundredths, as in the `decimal(12,2)` columns, and
percentage commissions are exact reals. A reward's `total_earned` is such a
column, so each commission added to it is stored rounded to hundredths. The modelled parts are:

- The submission service: slug lookup, rule lists, contact extraction,
  amounts, referral attribution, the free/paid decision, the invoice, and
  the admin payment-status update.
- Submission numbering (`SUB-<year>-<counter>`) and the resource rendering
  of money.
- The public form view with its virtual payment/referral section.
- The referral rewards: creation with per-form unique codes, approval,
  rejection, code verification, per-reward statistics and the leaderboard
  (aggregation, listing order, pages and `my_rank`).
- Invoice creation, the provider webhook and the payment-status predicates.
- Announcement import: status normalisation, the row check, submission
  matching, error accounting and statistics.
- The refresh-token store and the refresh endpoint's rotation.
- Form creation, duplication and the public form, the user-forms listing
  and the reorder endpoints.

Clocks, random draws, hashing, slugging, the request's IP and user agent,
and the provider's reply are parameters. Where the code does something it
evidently did not mean to, the model keeps the code as written under an
`AsWritten` name. It proves the discrepancy there and proves the intended
property of a corrected member, which the rest of the model uses (see
"## Findings").

Modules, one per file: `Wrappers`, `Seqs`, `Text`, `Money`, `Http`,
`Schema`, `FormView`, `Pricing`, `Validation`, `Affiliates`, `Leaderboard`,
`AffiliateStatistics`, `Numbering`, `Submissions`, `Payments`, `Submit`,
`Announcements`, `RefreshTokens`, `FormService` and `FormController`.

## Model

| member | source | states |
|---|---|---|
| Wrappers.Coalesce | app/Services/SubmissionService.php:187-191 | `a ?? b`: the first present value, and absent only when both are |
| Wrappers.Lookup | app/Services/SubmissionService.php:59-61 | `m[k] ?? null`: present exactly when the key is in the map, with its value |
| Text.IntToString | app/Models/Submission.php:69 | integer rendering: the digits read back as the number, with a leading '-' for negatives |
| Text.PadLeft | app/Models/Submission.php:69 | `str_pad(..., STR_PAD_LEFT)`: the result ends with the input, is filled in front and is never truncated |
| Text.LastChars | app/Models/Submission.php:66 | `substr(s, -k)`: the last k characters, or the whole string when it is shorter |
| Text.IntValOfDigits | app/Models/Submission.php:66 | `intval` of an all-digit string is the number it denotes |
| Text.IntValNegative | app/Models/Submission.php:66 | `intval` reads a leading '-' as a sign |
| Text.ToLower | app/Services/XenditService.php:108 | `strtolower` lower-cases the ASCII letters one by one and keeps the length |
| Money.FormatCents | app/Http/Resources/SubmissionResource.php:22-25 | '.' before exactly two digits, a leading '-' iff negative; FormatParseRoundTrip is its inverse |
| Money.FormatParseRoundTrip | app/Http/Resources/SubmissionResource.php:22-25 | parsing a formatted amount returns the amount, for every integer count of hundredths |
| Money.Fraction | app/Http/Resources/SubmissionResource.php:22-25 | two digits whose value is the amount modulo 100 |
| Money.RoundHalfAway | app/Http/Controllers/AffiliateController.php:299 | the result lies within half a unit of the exact value, ties going away from zero |
| Money.RoundWhole | app/Http/Controllers/AffiliateController.php:299 | a whole number of hundredths rounds to itself |
| Money.FormatAmount | app/Http/Controllers/AffiliateController.php:299 | two digits after a '.', and the text reads back as the exact amount rounded to hundredths |
| Money.RenderStored | app/Http/Resources/SubmissionResource.php:22-25 | a null amount renders "0.00"; any stored amount renders text that reads back as that amount |
| Money.RenderZero | app/Http/Resources/SubmissionResource.php:22-25 | a stored zero renders "0.00" |
| Money.RenderFiftyThousand | app/Http/Resources/SubmissionResource.php:25 | a stored 50000 renders "50000.00" |
| Money.RenderFourHundredFifty | app/Http/Controllers/AffiliateController.php:299 | an earned 450 renders "450.00" |
| Money.UndotAppend | app/Models/Form.php:192 | removing the dots distributes over concatenation |
| Money.UndotDigits | app/Models/Form.php:192 | a digit string has no dots to remove |
| Money.GroupThousands | app/Models/Form.php:192 | without the dots, the original digits; a '.' exactly at every fourth place from the right, |d| + (|d|−1)/3 characters, starting with the first digit |
| Money.FormatRupiah | app/Models/Form.php:192 | `number_format(price, 0, ',', '.')`: without the dots, the price in whole units rounded half away from zero; a leading '-' iff that is negative; the rest has a '.' exactly every fourth place from the right and the length of the digits plus one dot per full extra group |
| Money.GroupMillionAndHalf | app/Models/Form.php:192 | a price of 1500000 is labelled "1.500.000" |
| Schema.FindActiveBySlug | app/Services/SubmissionService.php:25-28 | the first form with the slug that is active; none when no active form has it |
| Schema.ActiveTiers | app/Models/Form.php:188-195 | a tier is kept iff it is one of the given tiers and active; the result is the order-preserving filter of the rows, one entry per row |
| Schema.ActiveTiersIdempotent | app/Models/Form.php:188-195 | filtering the active tiers twice is filtering once |
| Schema.ActiveUpsells | app/Services/FormService.php:108-113 | an upsell is kept iff it is one of the given upsells and active; the result is the order-preserving filter of the rows, one entry per row |
| FormView.VirtualAffiliateField | app/Models/Form.php:114-129 | the injected referral field is named `affiliate_code`, is optional, has the affiliate type and carries no id |
| FormView.VirtualTierField | app/Models/Form.php:132-147 | the injected tier choice is named `pricing_tier_id`, is a required select and carries no id |
| FormView.TierOptions | app/Models/Form.php:188-195 | one option per tier, in order, valued by tier id, labelled with the tier's label and carrying its price |
| FormView.TierLabel | app/Models/Form.php:192 | the tier's name, then " - Rp ", then the price rounded to whole rupiah whose digits, without the '.' separators, are the rounded price |
| FormView.SectionsWithAffiliate | app/Models/Form.php:150-212 | the persisted sections unchanged and, when payment or referral is on, exactly one virtual section of order 9999 after them |
| FormView.HeadingIdentifiesFlags | app/Models/Form.php:160-169 | the virtual section's title differs for each of the three flag combinations |
| FormView.VirtualFields | app/Models/Form.php:183-205 | one field per enabled flag: with payment the first is the required tier select over the active tiers, with referral the last is the optional referral field |
| FormView.VirtualSectionFields | app/Models/Form.php:183-205 | the tier choice is present iff payment is on, then the referral field iff referral is on; the options are exactly the active tiers |
| Pricing.FindTier | app/Services/SubmissionService.php:202 | the tier with the id from any form, active or not; none when no tier has it |
| Pricing.CalculateAmounts | app/Services/SubmissionService.php:194-221 | without payment all amounts are 0; otherwise an unknown tier id is 404, the base is the tier's price or 0, and total = base + upsells |
| Pricing.UpsellSumBySet | app/Services/SubmissionService.php:207-213 | the upsell amount depends only on the set of selected ids |
| Pricing.UpsellSelectedTwice | app/Services/SubmissionService.php:207-213 | an id selected twice is charged once |
| Pricing.UpsellUnknownId | app/Services/SubmissionService.php:207-213 | an id naming no enabled upsell adds nothing |
| Pricing.UpsellSumMono | app/Services/SubmissionService.php:207-213 | with non-negative prices, selecting more never costs less |
| Pricing.IntSumNone | app/Services/SubmissionService.php:207-213 | a sum over rows none of which is chosen is zero |
| Pricing.TierOwnershipUnchecked | app/Services/SubmissionService.php:202 | an inactive tier of another form still sets the base amount |
| Validation.TypeRules | app/Services/SubmissionService.php:130-165 | at most two type rules, never a presence rule; the referral rule iff the referral type, the phone rule iff the phone type |
| Validation.CustomRules | app/Services/SubmissionService.php:167-171 | the field's own rules in stored order, none when null |
| Validation.CustomsOf | app/Services/SubmissionService.php:167-171 | one custom rule per stored rule text, in order |
| Validation.FieldRuleList | app/Services/SubmissionService.php:122-173 | presence first, then the type rules, then the field's own rules |
| Validation.RequiredIffFlag | app/Services/SubmissionService.php:124-128 | 'required' is in the list iff the field counts as required; the referral and phone rules iff the field has that type |
| Validation.BuildRules | app/Services/SubmissionService.php:120-176 | one rule list per field, in field order, under the field's key |
| Validation.AsWrittenNeverRequires | app/Services/SubmissionService.php:124 | as written no field demands presence, so leaving one out never fails |
| Validation.RequiredFieldLeftOut | app/Services/SubmissionService.php:122-173 | a required field left out passes as written and fails as intended |
| Validation.RulesShape | app/Services/SubmissionService.php:122-173 | each intended list is keyed by the field's name and demands presence iff `is_required` |
| Validation.RequiredFieldsFilled | app/Services/SubmissionService.php:122-128 | as intended, presence rules hold exactly when every required field has a non-blank value |
| Validation.CodeRuleAgreesWithAttribution | app/Services/SubmissionService.php:157-162 | the referral rule accepts a truthy code exactly when attribution would credit a reward |
| Affiliates.FindQualifying | app/Services/SubmissionService.php:236-241 | a reward with this code and form that is active and approved, with none such before it; none when none is |
| Affiliates.CommissionShape | app/Services/SubmissionService.php:262-267 | a percentage commission scales with the total; any other type ignores the total |
| Affiliates.ProcessAffiliate | app/Services/SubmissionService.php:223-278 | attribution only on referral forms with a truthy code; the submission records the exact commission, the qualifying reward gains one referral and its earnings sum rounded to whole hundredths (within half a hundredth of the commission added), and no other reward changes |
| Affiliates.RoundedIncrementExample | app/Services/SubmissionService.php:260-271 | a 7.50 % reward on 12345.67 records 925.92525 as the commission but adds 925.93 to `total_earned` |
| Affiliates.TwoReferralsExample | tests/Feature/AffiliateReferralSystemTest.php:149-213 | 10 % of 100000.00 earns 10000.00; two such referrals leave 20000.00 over 2 referrals |
| Affiliates.FindById | app/Http/Controllers/AffiliateController.php:410 | the first reward with the id; none when no reward has it |
| Affiliates.Approve | app/Http/Controllers/AffiliateController.php:408-431 | 404 missing, 422 already approved; otherwise approved with time and admin, reason cleared, active flag and counters kept |
| Affiliates.Reject | app/Http/Controllers/AffiliateController.php:433-460 | 422 for a blank or over-500-character reason before any lookup; 404 missing, 422 already rejected; otherwise rejected with reason and admin and deactivated, nothing else changed |
| Affiliates.ApproveTwiceRefused | app/Http/Controllers/AffiliateController.php:412-417 | a second approval of the same reward is 422 |
| Affiliates.FirstIndexIsFirst | app/Http/Controllers/AffiliateController.php:410 | an index with the id and none before it is the one the lookup finds |
| Affiliates.TransitionsAndQualification | app/Http/Controllers/AffiliateController.php:408-460 | after approval a reward qualifies iff it was active; after rejection it never qualifies |
| Affiliates.GenerateUniqueCode | app/Http/Controllers/AffiliateController.php:475-485 | the first upper-cased draw unused on the form, every earlier draw taken; none when all are taken |
| Affiliates.Store | app/Http/Controllers/AffiliateController.php:54-92 | a code taken on the form is refused; otherwise one pending reward with zero totals is appended |
| Affiliates.StoreKeepsUnique | app/Http/Controllers/AffiliateController.php:66-80 | creation keeps (form, code) unique |
| Affiliates.TransitionsKeepUnique | app/Http/Controllers/AffiliateController.php:408-460 | attribution, approval and rejection keep (form, code) unique |
| Affiliates.AttributionKeepsUnique | app/Services/SubmissionService.php:243-270 | crediting a referral keeps (form, code) unique |
| Affiliates.ApproveKeepsUnique | app/Http/Controllers/AffiliateController.php:408-431 | approval keeps (form, code) unique |
| Affiliates.RejectKeepsUnique | app/Http/Controllers/AffiliateController.php:433-460 | rejection keeps (form, code) unique |
| Affiliates.ApproveAsWritten | app/Http/Controllers/AffiliateController.php:408-431 | as written: 404 missing, 422 already approved, otherwise 500; the table never changes |
| Affiliates.RejectAsWritten | app/Http/Controllers/AffiliateController.php:433-460 | as written: 422 for a refused reason, 404 missing, 422 already rejected; otherwise 500 with only the reward's active flag cleared |
| Affiliates.ApproveAsWrittenAgrees | app/Http/Controllers/AffiliateController.php:408-431 | as written approval answers 500 exactly where the corrected one succeeds, and refuses the rest with the same code |
| Affiliates.RejectAsWrittenAgrees | app/Http/Controllers/AffiliateController.php:433-460 | as written rejection answers 500 exactly where the corrected one succeeds, refuses the rest with the same code, and leaves the same active flags |
| Affiliates.ApproveLeavesPendingAsWritten | app/Http/Controllers/AffiliateController.php:419-430 | as written a pending reward stays pending and a second approval is 500 again, where the corrected one is refused with 422 |
| Affiliates.SameKeysUnique | app/Http/Controllers/AffiliateController.php:408-460 | tables with the same (form, code) keys row by row are unique together |
| Affiliates.Verify | app/Http/Controllers/AffiliateController.php:372-406 | 404 unless the code names an active approved reward of the form; the owner's name defaults to "Partner" |
| Affiliates.VerifyAgreesWithAttribution | app/Http/Controllers/AffiliateController.php:379-384 | verification accepts a truthy code exactly when a submission with it would be attributed |
| AffiliateStatistics.ConversionRate | app/Http/Controllers/AffiliateController.php:150-152 | 0 without referrals; otherwise rate × referrals = paid × 100 (the `IsRate` relation), within 0..100 when paid ≤ referrals |
| AffiliateStatistics.StatisticsOf | app/Http/Controllers/AffiliateController.php:139-152 | one reward's counters, the `affiliate_amount` sums of its pending, paid and failed referred submissions, and a rate in `IsRate` relation to the paid count |
| AffiliateStatistics.Statistics | app/Http/Controllers/AffiliateController.php:135-160 | 404 for an unknown reward; otherwise the counters of the first reward with the id, the per-status sums of `affiliate_amount` and a rate in `IsRate` relation to the paid count |
| AffiliateStatistics.PaidWithinReferred | app/Http/Controllers/AffiliateController.php:146-148 | with non-negative amounts the paid sum never exceeds the sum over all referred submissions |
| AffiliateStatistics.ServiceAmountsAreZero | app/Http/Controllers/AffiliateController.php:146-148 | over service-created submissions every earned sum is 0 |
| AffiliateStatistics.ThreeOfFour | app/Http/Controllers/AffiliateController.php:150-152 | three paid out of four referrals convert at 75 % |
| Leaderboard.ResolveParams | app/Http/Controllers/AffiliateController.php:250-258 | the metric defaults to earnings, 15 per page, and the page size is clamped into [1, 100] |
| Leaderboard.GroupOf | app/Http/Controllers/AffiliateController.php:262-265 | one owner's aggregate, empty exactly when the owner has no counted reward |
| Leaderboard.CountedOwners | app/Http/Controllers/AffiliateController.php:264-269 | an owner is listed iff one of their rewards is counted |
| Leaderboard.Groups | app/Http/Controllers/AffiliateController.php:260-272 | exactly one non-empty group per owner of a counted reward, owners distinct |
| Leaderboard.Joined | app/Http/Controllers/AffiliateController.php:277-279 | one row per group whose owner is a known user, each that group joined with its user |
| Leaderboard.ListedBeforeIrreflexive | app/Http/Controllers/AffiliateController.php:280-283 | no row is listed before itself |
| Leaderboard.ListedBeforeTransitive | app/Http/Controllers/AffiliateController.php:280-283 | the listing order is transitive |
| Leaderboard.Insert | app/Http/Controllers/AffiliateController.php:280-283 | one row longer, and the same rows plus the inserted one |
| Leaderboard.SortedCons | app/Http/Controllers/AffiliateController.php:280-283 | prepending a row no later row precedes keeps the listing sorted |
| Leaderboard.InsertSorted | app/Http/Controllers/AffiliateController.php:280-283 | insertion into a sorted listing keeps it sorted |
| Leaderboard.SortRows | app/Http/Controllers/AffiliateController.php:280-283 | the listing is a permutation of the joined rows; SortRowsSorted proves its order |
| Leaderboard.SortRowsSorted | app/Http/Controllers/AffiliateController.php:280-283 | the listing is in metric, earned and referrals descending order, then by name |
| Leaderboard.CurrentPage | app/Http/Controllers/AffiliateController.php:284 | the requested page when it is positive, else page 1 |
| Leaderboard.PageItems | app/Http/Controllers/AffiliateController.php:287-304 | a page past the end is empty, otherwise it holds up to perPage items; item i of page p is listing row (p−1)·perPage + i, ranked by that place plus one, with the row's user and referrals and its earnings rounded to hundredths |
| Leaderboard.MyRank | app/Http/Controllers/AffiliateController.php:306-370 | null without a caller or counted rewards; else 1 + the groups ahead, NULL owner included, and the caller's own totals with earnings rounded to hundredths |
| Leaderboard.OwnGroupPresent | app/Http/Controllers/AffiliateController.php:312-326 | the caller with counted rewards has a group, which is not ahead of itself |
| Leaderboard.RankWithinGroups | app/Http/Controllers/AffiliateController.php:343-369 | fewer groups are ahead of the caller than there are groups, so `my_rank` never exceeds them |
| Leaderboard.AheadTransitive | app/Http/Controllers/AffiliateController.php:345-367 | being ahead is transitive |
| Leaderboard.AheadTotal | app/Http/Controllers/AffiliateController.php:345-367 | of two different owners, one is ahead of the other |
| Leaderboard.DistinctUsersDistinctRanks | app/Http/Controllers/AffiliateController.php:343-369 | two different callers never share a rank |
| Leaderboard.AheadImplies | app/Http/Controllers/AffiliateController.php:345-367 | whoever is ahead of a group is ahead of everyone that group is ahead of |
| Leaderboard.MyRankListed | app/Http/Controllers/AffiliateController.php:343-369 | the rank counted over the listed groups only |
| Leaderboard.ListedRankBound | app/Http/Controllers/AffiliateController.php:343-369 | a listed caller has fewer listed groups ahead than there are participants |
| Leaderboard.ListedRankAgrees | app/Http/Controllers/AffiliateController.php:343-369 | when every counted reward has a known owner, the corrected and written ranks agree |
| Leaderboard.AllGroupsListed | app/Http/Controllers/AffiliateController.php:277-279 | when every owner is a known user, every group is listed |
| Leaderboard.PageStart | app/Http/Controllers/AffiliateController.php:288 | the offset of page p is (p−1)·perPage |
| Leaderboard.RenderRow | app/Http/Controllers/AffiliateController.php:290-302 | an item carries the rank, the row's user and referrals, and its earnings rounded to hundredths |
| Leaderboard.Board | app/Http/Controllers/AffiliateController.php:205-248 | 422 exactly when `form_id` names no stored form or `per_page` lies outside [1, 100]; otherwise participants are the listed groups, the page size is the requested one (15 by default), the items are the requested page of the listing and `my_rank` the corrected rank, within the participants |
| Leaderboard.Listing | app/Http/Controllers/AffiliateController.php:276-284 | one row per listed group |
| Leaderboard.TwoGroups | app/Http/Controllers/AffiliateController.php:260-272 | two counted rewards of different owners form two single-reward groups |
| Leaderboard.TwoGroupOf | app/Http/Controllers/AffiliateController.php:262-265 | the aggregate of a single-reward owner is that reward's totals |
| Leaderboard.TieGroupOf | app/Http/Controllers/AffiliateController.php:262-265 | each tie owner's group is 100.00 over one referral from one reward |
| Leaderboard.TieGroupsComputed | app/Http/Controllers/AffiliateController.php:260-272 | the tie witnesses produce the two expected groups |
| Leaderboard.TieListing | app/Http/Controllers/AffiliateController.php:283 | equal totals are listed by name: "Amy" before "Zed" |
| Leaderboard.TieAheadCounts | app/Http/Controllers/AffiliateController.php:355-361 | with equal totals the smaller id is ahead |
| Leaderboard.TieRankB | app/Http/Controllers/AffiliateController.php:355-361 | the larger id gets rank 2 |
| Leaderboard.TieRankA | app/Http/Controllers/AffiliateController.php:355-361 | the smaller id gets rank 1 |
| Leaderboard.ListingDisagreesWithMyRank | app/Http/Controllers/AffiliateController.php:280-361 | the user listed first can have `my_rank` 2 |
| Leaderboard.NullOwnerRankExceedsParticipants | app/Http/Controllers/AffiliateController.php:343-369 | as written, a NULL-owner group makes `my_rank` exceed the number of participants |
| Numbering.LatestInYear | app/Models/Submission.php:61-64 | the latest submission of the year, none exactly when the year has none |
| Numbering.FormatNumber | app/Models/Submission.php:69 | a number starts "SUB-" and has at least ten characters |
| Numbering.NumberOnCreate | app/Models/Submission.php:51-55 | a truthy supplied number is kept; otherwise one is generated |
| Numbering.FirstOfYear | app/Models/Submission.php:61-69 | the first number of a year is "SUB-<year>-00001" |
| Numbering.LastCharsOfAppend | app/Models/Submission.php:66 | the last k characters of a string ending in a k-character tail are that tail |
| Numbering.PaddedCounter | app/Models/Submission.php:69 | a counter up to 99999 pads to five digits that denote it |
| Numbering.SuffixOfNumber | app/Models/Submission.php:66-69 | below 100000 the five-character suffix is the padded counter |
| Numbering.NumberRoundTrip | app/Models/Submission.php:66-69 | reading back a generated number's suffix gives its counter, 0 to 99999 |
| Numbering.Successor | app/Models/Submission.php:65-69 | below 100000 each number is followed by the next counter |
| Numbering.CounterRestartsAfterOverflow | app/Models/Submission.php:66-69 | after counter 100000 the next counter is 1 |
| Numbering.OverflowNumber | app/Models/Submission.php:69 | counter 100000 renders "SUB-<year>-1" followed by "00000" |
| Numbering.OverflowRendering | app/Models/Submission.php:69 | 100000 pads to six characters, "1" then "00000" |
| Numbering.ZerosParse | app/Models/Submission.php:66 | "00000" reads as 0 |
| Numbering.LegacyNumber | database/seeders/SubmissionSeeder.php:47 | after "PSBA-2024-0001" the next counter is 0 |
| Numbering.LegacySuffix | app/Models/Submission.php:66 | the last five characters of "PSBA-2024-0001" are "-0001" |
| Numbering.MinusOneParses | app/Models/Submission.php:66 | "-0001" reads as minus the value of "0001" |
| Numbering.DigitsOfOne | app/Models/Submission.php:66 | "0001" denotes 1 |
| Numbering.AfterLegacyNumber | app/Models/Submission.php:69 | counter 0 in 2024 is "SUB-2024-00000" |
| Numbering.YearRendering | app/Models/Submission.php:69 | 2024 renders "2024" |
| Numbering.ZeroPadding | app/Models/Submission.php:69 | 0 pads to "00000" |
| Submissions.FindSubmission | app/Services/SubmissionService.php:282 | the submission with the id; none when none has it |
| Submissions.UpdatePaymentStatus | app/Services/SubmissionService.php:280-297 | 404 missing; otherwise the status set, `paid_at` only for "paid", nothing else changed, the payment reference included |
| Submissions.UpdateIgnoresReference | app/Services/SubmissionService.php:290-294 | the outcome is the same whatever payment reference is supplied |
| Submissions.WrittenStatusRefused | database/migrations/2024_01_01_000011_create_submissions_table.php:34 | "paid" and "pending_payment" are not values of the `status` column |
| Submissions.UpdatePaymentStatusEndpoint | app/Http/Controllers/SubmissionController.php:103-122 | a status outside unpaid, pending, paid, failed and refunded is 422 and changes nothing |
| Submissions.EndpointKeepsStatusesValid | app/Http/Controllers/SubmissionController.php:106 | through the endpoint every stored payment status stays a column value |
| Submissions.UpdateTwice | app/Services/SubmissionService.php:284-294 | repeating an update to a status other than "paid" changes nothing more |
| Submissions.Scope | app/Http/Controllers/SubmissionController.php:128-133 | one form's submissions for a truthy form id, all otherwise |
| Submissions.SubmissionStatistics | app/Http/Controllers/SubmissionController.php:124-150 | the total is the scope's size, one form's count for a truthy form id; the four counts are the scope's rows with each payment status and never exceed the total; the revenue is the `total_amount` sum of the scope's paid rows, the referrals the rows with a code, the commissions the sum of every row's commission |
| Submissions.StatusesPartition | app/Http/Controllers/SubmissionController.php:137-140 | each submission is counted under exactly one status or none |
| Submissions.RevenueIgnoresUnpaid | app/Http/Controllers/SubmissionController.php:142 | changing an unpaid submission leaves the revenue unchanged |
| Submissions.RevenuePointwise | app/Http/Controllers/SubmissionController.php:142 | tables differing only at unpaid submissions have the same revenue |
| Submissions.Render | app/Http/Resources/SubmissionResource.php:10-39 | each amount reads back as the stored amount, zero shows "0.00", and every other column, ids, contact, data, tier, upsells, statuses, method and times, passes through unchanged |
| Payments.ExactlyOneStatus | app/Models/Payment.php:51-69 | on the column's four values exactly one predicate holds; on any other string none |
| Payments.ExternalId | app/Services/XenditService.php:30 | "SUBMISSION-" + submission id + "-" + the Unix time |
| Payments.AfterDashDigits | app/Services/XenditService.php:30 | a digit string after a '-' is what follows the last '-' |
| Payments.ExternalIdTime | app/Services/XenditService.php:30 | the time reads back from an external id |
| Payments.ExternalIdInjective | app/Services/XenditService.php:30 | different (submission, time) pairs give different external ids |
| Payments.FormTier | app/Services/XenditService.php:27 | the form's tier with the id, active or not; none when the form has none |
| Payments.CreateInvoice | app/Services/XenditService.php:24-90 | the invoice and payment carry the tier's price; the payment is pending and expires a day later; the submission becomes pending_payment |
| Payments.InvoiceIgnoresTotal | app/Services/XenditService.php:41-80 | the invoiced amount does not depend on the submission total |
| Payments.BlankNameDropsCustomer | app/Services/XenditService.php:34-57 | a present but false-y name drops the customer block |
| Payments.BlockedByNewPayment | app/Http/Controllers/PaymentController.php:34-44 | once a pending payment is appended for a submission, it is the one a repeated request finds |
| Payments.FindByExternalId | app/Services/XenditService.php:103 | the first payment with the external id; none when none has it |
| Payments.HandleWebhook | app/Services/XenditService.php:95-136 | a missing or unknown id changes nothing; paid/settled, expired and failed set the payment and submission statuses; others only return; a crash on a missing submission keeps the payment update only |
| Payments.PaidWebhookHandled | app/Services/XenditService.php:110-122 | a "paid" event for a stored payment with an existing submission marks both paid |
| Payments.PaymentFoundAfterUpdate | app/Services/XenditService.php:103-122 | updating the found payment in place keeps it the one its external id finds |
| Payments.WebhookCaseInsensitive | app/Services/XenditService.php:108 | "PAID" acts as "paid" |
| Payments.PaidReplayRewritesTime | app/Services/XenditService.php:110-122 | a replayed "paid" moves `paid_at` to the replay's time |
| Payments.UnconfiguredTokenAcceptsNoHeader | app/Http/Controllers/PaymentController.php:136-147 | with no token configured, a request without the header passes |
| Payments.Webhook | app/Http/Controllers/PaymentController.php:132-180 | 401 on a token mismatch before any change; 404 without a payment; 200 with it; 500 on a crash |
| Payments.WebhookAsWritten | app/Services/XenditService.php:119-131 | as written the submissions never change; payments change as intended; 500 wherever the intended endpoint would move a submission to a new status |
| Payments.PaidEventFailsAsWritten | app/Services/XenditService.php:110-122 | a "paid" event for a payment whose submission exists is 200 as intended and 500 as written, with the payment paid and the submission untouched |
| Payments.FindForm | app/Http/Controllers/PaymentController.php:24 | the form with the id; none when none has it |
| Payments.CreateInvoiceEndpoint | app/Http/Controllers/PaymentController.php:21-83 | 500 for any failure, 400 without payment, 400 when paid, 200 with the pending payment, else 201 with one new payment |
| Payments.RepeatedRequestReturnsSamePayment | app/Http/Controllers/PaymentController.php:35-57 | asking again while pending returns the same payment with 200 and creates nothing |
| Payments.CreateInvoiceEndpointAsWritten | app/Services/XenditService.php:72-87 | as written the submissions never change; where the intended endpoint answers 201 it answers 500 but keeps the new pending payment; otherwise the same |
| Payments.RetryFindsStoredInvoiceAsWritten | app/Http/Controllers/PaymentController.php:35-57 | as written the first request is 500 with the invoice stored, and the next is 200 with that payment, creating nothing |
| Submit.ExtractContactInfo | app/Services/SubmissionService.php:185-192 | name from `name` else `full_name`, email from `email`, phone from `phone` else `phone_number` |
| Submit.Records | app/Models/Submission.php:61-64 | one numbering record per stored submission, with its number and times |
| Submit.CreateKeysFiltered | app/Models/Submission.php:15-34 | of the attributes the service passes, the fillable filter keeps nine and discards `amount`, `upsells_selected`, `affiliate_code`, `affiliate_commission`, the three contact keys, `ip_address` and `user_agent` |
| Submit.NewSubmission | app/Services/SubmissionService.php:49-72 | the row carries the form, the amounts, the attribution and the number; a free one is paid/approved by `free` at now, any other pending with the requested method and no `paid_at` |
| Submit.Record | app/Services/SubmissionService.php:54-78 | a free submission is appended with the credited rewards and no invoice; any other, when the invoice succeeds, is appended as pending_payment with a pending payment of the tier's price |
| Submit.SubmitForm | app/Services/SubmissionService.php:21-83 | a failure changes no table; a success passes validation, is free iff payment is off or the total is 0, requests an invoice iff not free, records the amounts, attribution and generated number, and only appends |
| Submit.Pipeline | app/Services/SubmissionService.php:47-50 | a run that gets through leaves a record with status "paid" or "pending_payment" |
| Submit.SubmitFormAsWritten | app/Services/SubmissionService.php:81 | with status columns that accepted the written values, every submission would fail; a run the corrected service accepts would end with the missing-relation error |
| Submit.SubmitFormAsMigrated | app/Services/SubmissionService.php:47-53 | against the migrated schema every submission fails; a run that gets through fails at the status write, whose value the column refuses |
| Submit.NoPaymentNoPercentage | app/Services/SubmissionService.php:196-199 | on a form without payment a percentage referral earns nothing |
| Submit.FreeSubmissionWitness | app/Services/SubmissionService.php:49-81 | an empty submission of a free form is stored "paid"/"approved" as intended, fails as written at the status write, and would otherwise fail at the relation load |
| Submit.StoreEndpoint | app/Http/Controllers/SubmissionController.php:63-90 | 201 with a payment block exactly when the submission awaits payment and has one; failures keep their status |
| Announcements.NormalizeStatus | app/Services/AnnouncementService.php:99-121 | a known synonym of the trimmed, lower-cased status maps to its status; anything else is "pending" |
| Announcements.StatusNormalized | app/Services/AnnouncementService.php:103-120 | every result is accepted, rejected or pending |
| Announcements.LowerOfLower | app/Services/AnnouncementService.php:101 | lower-casing is idempotent |
| Announcements.StatusesMapToThemselves | app/Services/AnnouncementService.php:103-118 | the three statuses are synonyms of themselves |
| Announcements.LulusAccepted | app/Services/AnnouncementService.php:105 | "lulus" is a synonym of accepted |
| Announcements.StatusIsKey | app/Services/AnnouncementService.php:101-118 | each status trims and lower-cases to itself and maps to itself |
| Announcements.NormalizeIdempotent | app/Services/AnnouncementService.php:99-121 | normalising twice is normalising once |
| Announcements.ShoutedSynonym | app/Services/AnnouncementService.php:101-118 | " LULUS " normalises to accepted |
| Announcements.ValidateCsvRecord | app/Services/AnnouncementService.php:67-97 | the first missing required column, in order identifier, name, status, with its alternatives, is reported |
| Announcements.ValidationIsPresence | app/Services/AnnouncementService.php:93-96 | the invalid-status branch never fires: a row fails exactly when a required column is missing |
| Announcements.AlternativeHeader | app/Services/AnnouncementService.php:71-76 | a `nomor_pendaftaran` column stands for the identifier |
| Announcements.FirstSet | app/Services/AnnouncementService.php:125-126 | `??` over keys: the first key set, none when none is |
| Announcements.FindMatchingSubmissionAsWritten | app/Services/AnnouncementService.php:123-143 | none without phone or email; otherwise the first submission the (form ∧ phone) ∨ email query accepts |
| Announcements.FindMatchingSubmission | app/Services/AnnouncementService.php:123-143 | the first submission of the form whose phone or email agrees; none without phone or email |
| Announcements.IntendedWithinAsWritten | app/Services/AnnouncementService.php:132-140 | every submission the intended match accepts, the written query accepts |
| Announcements.EmailOnlyAcceptsWholeForm | app/Services/AnnouncementService.php:132-140 | with only an email, the written query accepts every submission of the form |
| Announcements.EmailCrossesForms | app/Services/AnnouncementService.php:132-140 | with phone and email, the written query accepts another form's submission by email |
| Announcements.EmailOnlyLinksWrongSubmission | app/Services/AnnouncementService.php:132-140 | an email-only row links the form's first submission as written, and the one with the email when corrected |
| Announcements.RowCheck | app/Services/AnnouncementService.php:28-36 | the column check, then reading the phone, which fails on `hp` when no phone header is set |
| Announcements.ImportRow | app/Services/AnnouncementService.php:28-42 | a passing row yields one announcement with its identifier, name, normalised status, linked submission and time |
| Announcements.ImportRowAsWritten | app/Services/AnnouncementService.php:32-41 | as written every row fails, with the insert error once its checks pass |
| Announcements.Import | app/Services/AnnouncementService.php:13-65 | imported = the created announcements = the passing rows; each failing row adds one "Row n" line, in order |
| Announcements.ImportedRows | app/Services/AnnouncementService.php:25-43 | one announcement per passing row, each of the form and with a valid status |
| Announcements.ErrorLines | app/Services/AnnouncementService.php:44-46 | one line per failing row, in order, naming the row and its error |
| Announcements.PassOrFail | app/Services/AnnouncementService.php:25-47 | every row is imported or reported: passing and failing rows add up to all rows |
| Announcements.ImportAsWritten | app/Services/AnnouncementService.php:13-65 | as written nothing is imported and every row is an error line |
| Announcements.CompleteRowOnlyImportedWhenCorrected | app/Services/AnnouncementService.php:32-41 | a complete row with a phone is imported when corrected and rejected as written |
| Announcements.RowWithoutPhoneFails | app/Services/AnnouncementService.php:36 | a complete row without any phone header fails on the undefined key `hp` |
| Announcements.GetStatistics | app/Services/AnnouncementService.php:145-155 | the form's announcement count and the count of each status |
| Announcements.StatusesPartition | app/Services/AnnouncementService.php:147-154 | with valid statuses the three counts add up to the total |
| Announcements.ImportedPartition | app/Services/AnnouncementService.php:147-154 | announcements of the corrected import keep the partition |
| Announcements.CountAllOfForm | app/Services/AnnouncementService.php:147-154 | a count over the form's rows under an always-true condition is the form's count |
| RefreshTokens.Mint | app/Services/RefreshTokenStore.php:19-40 | appends the hash of the raw token for the user, unrevoked, expiring `minutes` later, and returns the raw token |
| RefreshTokens.Validate | app/Services/RefreshTokenStore.php:48-58 | the owner of a live token with the hash, none when none is live |
| RefreshTokens.RevokeWhere | app/Services/RefreshTokenStore.php:66-84 | the selected tokens become revoked, the rest unchanged |
| RefreshTokens.Revoke | app/Services/RefreshTokenStore.php:66-72 | every token with the hash is revoked; true iff one matched |
| RefreshTokens.RevokeAllForUser | app/Services/RefreshTokenStore.php:80-84 | only the user's tokens change, and their number is returned |
| RefreshTokens.MintThenValidate | app/Services/RefreshTokenStore.php:19-58 | a fresh token validates for its owner iff it expires after now |
| RefreshTokens.RevokedNeverValidates | app/Services/RefreshTokenStore.php:48-72 | after a revoke the raw token never validates |
| RefreshTokens.Refresh | app/Http/Controllers/AuthController.php:81-117 | 401 without a cookie or for an invalid token, 404 for an unknown user; otherwise revoke, mint for 20160 minutes, 200 |
| RefreshTokens.DeadAfterAppend | app/Services/RefreshTokenStore.php:19-72 | a revoked token stays dead after another token is minted |
| RefreshTokens.RotationRetiresOldToken | app/Http/Controllers/AuthController.php:102-108 | after a refresh the old token is dead and the new one validates for the same user |
| RefreshTokens.ReplayRefused | app/Http/Controllers/AuthController.php:89-93 | a rotated-out token is refused with 401 |
| FormService.NewField | app/Services/FormService.php:39-49 | the name defaults to the label's slug, `is_required` falls back to `required` then false, order to 0 |
| FormService.NewSection | app/Services/FormService.php:28-34 | a section owned by the form, with order defaulting to 0 |
| FormService.NewSlug | app/Services/FormService.php:17-19 | the supplied slug, else the name's slug; an empty one is replaced by the slug |
| FormService.CreateFormWithSections | app/Services/FormService.php:13-57 | flags default to active, no payment, no referral; sections and fields created in request order |
| FormService.CreatedFormIsPublic | app/Services/FormService.php:13-57 | an active created form, under a slug no stored form has, is what the public lookup returns for that slug, sections included |
| FormService.CreateFormWithSectionsAsWritten | app/Services/FormService.php:17-25 | succeeds iff the fillable part of the written keys is a valid forms row, and then gives the corrected form; otherwise 500 |
| FormService.CreateFailsAsWritten | app/Services/FormService.php:17-25 | `title` never survives the fillable filter, so creation always ends in 500 |
| FormService.CorrectedCreateAccepted | app/Services/FormService.php:17-25 | writing the name under `title` gives a row the table accepts |
| FormService.BareRequestDefaults | app/Services/FormService.php:21-23 | a name-only request is an active form without payment, referral or sections |
| FormService.ExplicitFalseKept | app/Services/FormService.php:21-23 | an explicit false is kept |
| FormService.RequiredAlias | app/Services/FormService.php:45 | `required: true` alone makes the field required |
| FormService.DuplicateForm | app/Services/FormService.php:59-100 | none for a missing form; otherwise a duplicate titled "<title> (Copy)" |
| FormService.DuplicateFormAsWritten | app/Services/FormService.php:59-70 | 404 exactly for a missing form; success iff the saved keys form a valid row, and then it is the corrected copy; otherwise 500 |
| FormService.DuplicateFailsAsWritten | app/Services/FormService.php:65-67 | `name` is not a column, so duplicating an existing form always ends in 500 |
| FormService.FindForm | app/Services/FormService.php:61 | the form with the id; none when none has it |
| FormService.CopyIsDuplicate | app/Services/FormService.php:71-96 | the copy has the same sections, fields, tiers and upsells one for one, re-owned, with no default tier |
| FormService.CopyOfCopy | app/Services/FormService.php:66 | duplicating a copy appends " (Copy)" again |
| FormService.GetPublicForm | app/Services/FormService.php:102-116 | none iff no active form has the slug; otherwise that form with its sections, and its tiers and upsells reduced to the active ones in stored order |
| FormService.PublicFormShowsSameSections | app/Services/FormService.php:102-116 | the public form shows the same sections, the virtual tier choice included, as the stored form |
| FormController.LastOrder | app/Http/Controllers/FormController.php:162-165 | the order of the last entry naming the id; none when no entry names it |
| FormController.ApplyItem | app/Http/Controllers/FormController.php:163-164 | every row with the entry's id takes its order; others unchanged |
| FormController.ApplyItemsLastWins | app/Http/Controllers/FormController.php:162-165 | applying the entries in order gives each named row its last entry's order and leaves the rest |
| FormController.Reorder | app/Http/Controllers/FormController.php:154-171 | 422 and no change on an invalid request; otherwise 200 with the listed rows reordered and the rest unchanged |
| FormController.ReorderSections | app/Http/Controllers/FormController.php:154-171 | sections are reordered by the generic rule |
| FormController.ReorderFields | app/Http/Controllers/FormController.php:178-195 | fields are reordered by the generic rule |
| FormController.ReorderPricingTiers | app/Http/Controllers/FormController.php:202-219 | tiers are reordered by the generic rule |
| FormController.ReorderUpsells | app/Http/Controllers/FormController.php:226-243 | upsells are reordered by the generic rule |
| FormController.LaterEntryWins | app/Http/Controllers/FormController.php:162-165 | of two entries for one section the later decides |
| FormController.LastIndex | app/Http/Controllers/FormController.php:269-272 | the last row satisfying the condition, none when no row does |
| FormController.Summarize | app/Http/Controllers/FormController.php:275-293 | `user_has_submitted` iff a submission of the form has the user's email; status, id and submission time come from the last such submission |
| FormController.GetUserForms | app/Http/Controllers/FormController.php:248-301 | exactly the active forms passing the filters, in order; the total equals their number |
| FormController.ServiceSubmissionsNotSeen | app/Http/Controllers/FormController.php:269 | over service-created submissions no listed form shows the user as having submitted |
| FormController.InactiveNeverListed | app/Http/Controllers/FormController.php:253 | an inactive form is never listed |
| FormController.GetBySlug | app/Http/Controllers/FormController.php:115-130 | 404 "Form not found or inactive" without a public form, else 200 with it |
| FormController.Duplicate | app/Http/Controllers/FormController.php:104-113 | 404 for an unknown form, else 201 with the copy |
| FormController.DuplicateAsWritten | app/Http/Controllers/FormController.php:104-113 | as written: 404 for an unknown form, 500 for every other, exactly where the corrected endpoint answers 201; never a copy |

## Left out

- File uploads and storage are filesystem I/O. The uploaded data is the request's data unchanged.
- The payment provider's SDK is foreign code. Its reply to an invoice request is an input. Fetching and expiring an invoice are not modelled.
- Database transactions, locking and concurrency are left out. Each operation is one atomic step, and a transaction's rollback is a failure that leaves every table unchanged.
- Validator string rules are not interpreted. Presence, the phone pattern and the referral-code rule are modelled. The verdict on email, numeric, date, file, string and the fields' own rules is one boolean input.
- Request-rule classes are declarative and left out: `exists:forms,slug`, uuid formats, and the upsell and reward request rules.
- Leaderboard.Board: the uuid format of `form_id` is not checked; an id is accepted iff it names a stored form. The metric is a two-valued type and the page size an integer, so the `in:` and `integer` rules have nothing left to refuse.
- FormView.VirtualAffiliateField: the view passes ids to the injected fields, but `id` is not mass-assignable on a field, so the field has none and renders a null id. The model writes the empty string, NoFieldId, for that null. The same holds for FormView.VirtualTierField. The section model is not part of this model, so the injected section keeps the id the view passes.
- Mass assignment is filtered only where the lines below say so. Elsewhere the model stores what the code writes.
- Submissions.UpdatePaymentStatus: the supplied payment reference is never stored. It is neither mass-assignable nor a column of the submissions table, so the model drops it, as the code does.
- Affiliates.Approve: the corrected transition. As written the update writes nothing, because `$fillable` lists none of `status`, `approved_at`, `approved_by` and `rejection_reason`. The response then loads an `approvedBy` relation the reward model lacks, so every approval of a reward not yet approved ends in 500 with the table unchanged (ApproveAsWritten, see "## Findings").
- Affiliates.Reject: the corrected transition. As written only `is_active` is mass-assignable, so the reward is deactivated but keeps its status and reason, and the response fails on the same missing relation with 500 (RejectAsWritten, see "## Findings").
- Affiliates.ApproveTwiceRefused: holds of the corrected transitions only. As written the first approval leaves the reward pending with 500, and so does the second (ApproveLeavesPendingAsWritten).
- Affiliates.TransitionsAndQualification: holds of the corrected transitions only. As written no reward becomes approved through the endpoints, and a rejected one only loses its active flag.
- The clock, random strings, token hashing, slugging, IP and user agent are parameters of the functions that use them.
- Floats are read as exact reals. This covers `number_format` of a float, the `(float)` casts and the conversion-rate division. Rounding is exact half-away-from-zero.
- CSV reading is left out. A row is a map from header to value, and its position in the file is an offset parameter.
- SQL `LIKE` wildcards inside the search term and case-insensitive collation are not modelled. `LIKE '%t%'` is a substring test.
- Relation reloading, eager loading and the order of relations after create or duplicate are Eloquent internals and left out.
- Soft-deleted rows are not in the modelled tables.
- `recent_submissions` in the reward statistics is a sorted sample of stored rows and is left out.
- `getAdminBySlug` calls a service method that does not exist. It is left out.
- RefreshTokens.Revoke: the update count is read as rows matched, not rows changed. MySQL counts only changed rows, so revoking an already-revoked token reports false there.
- RefreshTokens.RevokeAllForUser: the returned number is every token of the user, revoked or not, because the update has no `revoked` filter. MySQL counts only the rows it changed, so already-revoked tokens are not counted there.
- Leaderboard.SortRows: rows equal under all four keys are in an unspecified SQL order. The model orders them by insertion, which is one admissible order.
- Submit.SubmitForm: a paid request without a tier id reads an undefined array key and ends in 500. The model answers 404, as for a tier id naming no tier.
- Submit.SubmitForm: the corrected service, run against status columns that accept what it writes. As written the free path inserts status "paid" and payment status "approved", outside both enums of the submissions table, and the paid path's invoice writes "pending_payment". Every run that gets that far therefore ends in a database error and rolls back (SubmitFormAsMigrated, see "## Findings"). Storing those values is a correction, not the code as written.
- Submit.SubmitForm: the service writes columns the submission model does not declare. For example, it writes `contact_email` instead of `email` and `affiliate_commission` instead of `affiliate_amount`. ServiceSubmissionsNotSeen and ServiceAmountsAreZero state the consequences.
- Submit.NewSubmission: the record keeps `amount`, `upsells_selected`, `affiliate_code`, `affiliate_commission`, `contact_name`, `contact_email`, `contact_phone`, `ip_address` and `user_agent` as the values the service passes. None of them is in the submission model's `$fillable`, so the created and returned submission holds none of them (CreateKeysFiltered). The clauses that read them state what the service computes, not what is stored: SubmitForm's code and commission clauses, Submit.NoPaymentNoPercentage, and Submissions.SubmissionStatistics.
- Submit.StoreEndpoint: the endpoint reads `$submission->payment`, a relation the submission model lacks. The model assumes the relation returns the submission's latest payment.
- Pricing.CalculateAmounts: upsells are read through `enabled` and `upsell_price`. The upsells table has neither column, so as written a payment request with an `upsells_selected` array ends in a database error. Reading them as the active flag and the price is a correction, not the code as written.
- Payments.HandleWebhook: stores the submission statuses `paid` and `draft`, which lie outside the submissions table's enum. As written that write fails after the payment update is stored. Storing them is a correction, not the code as written.
- Payments.Webhook: the corrected endpoint. As written every paid, settled, expired or failed event for a payment whose submission would change status ends in 500, with only the payment changed (WebhookAsWritten, see "## Findings").
- Payments.CreateInvoice: the corrected service step. As written the `pending_payment` write fails after the payment is stored, and no transaction rolls the payment back.
- Payments.CreateInvoiceEndpoint: the corrected endpoint. As written the first request for a new invoice ends in 500 with the pending payment kept, and a retry answers 200 with it (CreateInvoiceEndpointAsWritten, RetryFindsStoredInvoiceAsWritten, see "## Findings").
- FormController.Duplicate: built on the corrected DuplicateForm. As written every existing form ends in 500 (DuplicateAsWritten).
- FormService.CreateFormWithSections: as written no form can be created. The title is passed as `name`, mass assignment drops it, and the insert lacks the NOT NULL `title`. CreateFormWithSectionsAsWritten models that failure, and the corrected member stores the name as the title (see "## Findings").
- FormService.DuplicateForm: as written no form can be duplicated, because the save writes a `name` column the forms table lacks. DuplicateFormAsWritten models that failure, and the corrected member titles the copy "<title> (Copy)" (see "## Findings").
- Leaderboard.Board: `my_rank` is the corrected rank, MyRankListed. The program returns the unjoined count, which is `MyRank(...).0` and includes a group of rewards with no owner. The two agree whenever every counted reward has a known owner (ListedRankAgrees).
- Submissions.SubmissionStatistics: as written the endpoint ends in a database error. `affiliate_referrals` filters on `affiliate_code` and `total_commissions` sums `affiliate_commission`, and neither is a column of the submissions table. The model computes both over the submission's stored referral code and commission, as intended.
- Submissions.Render: timestamps stay integers. Their ISO-8601 rendering is formatting and is left out.
- Behaviour that appears only in a later revision's feature tests is not modelled. This covers duplicate-submission prevention, acknowledging webhooks for unknown ids, and submission statuses `approved`/`expired` after a webhook.

## Findings

| source | as written | input that shows it | evidently intended | confidence | as-written member | corrected member |
|---|---|---|---|---|---|---|
| app/Services/SubmissionService.php:122-173 | presence is read from `$field->required`, which fields do not have, and rules are keyed `data.<field id>` while data is keyed by field name | a form with one required field and a submission that leaves it out | a required field must be filled, checked under the field's name | not executed | Validation.RequiredFieldLeftOut | Validation.RequiredFieldsFilled |
| app/Services/SubmissionService.php:81 | the created submission loads a `payment` relation that the submission model does not define, which throws and rolls the whole submission back; it is reached only once the status columns accept the values written before it | any valid submission, e.g. an empty one to a free form, with the status enums widened | the submission is returned with its loaded relations | not executed | Submit.SubmitFormAsWritten | Submit.SubmitForm |
| app/Services/SubmissionService.php:47-53 | a free submission is inserted with status "paid" and payment status "approved", which the table's enums refuse; a paid one reaches invoicing, whose "pending_payment" write is refused too | an empty submission to a free form | the submission is stored as paid, or as awaiting payment | not executed | Submit.SubmitFormAsMigrated | Submit.SubmitForm |
| app/Services/XenditService.php:72-87 | the payment is stored, then "pending_payment" is written to a `status` column that refuses it; nothing rolls the payment back and the endpoint answers 500 | a first invoice request for a submission of a payment form with a valid tier | 201 with the new invoice and the submission awaiting payment | not executed | Payments.RetryFindsStoredInvoiceAsWritten | Payments.CreateInvoiceEndpoint |
| app/Services/XenditService.php:119-131 | after the payment update the submission's status is written as "paid" or "draft", values the `status` column refuses, so the webhook answers 500 | a "paid" event for a stored payment whose submission is pending | 200 with the payment and the submission marked paid | not executed | Payments.PaidEventFailsAsWritten | Payments.Webhook |
| app/Http/Controllers/AffiliateController.php:419-430 | the update lists only columns outside the reward's `$fillable`, so nothing is written, and the response loads an `approvedBy` relation the reward model lacks | approving any pending reward | the reward is approved, with time and approver, and returned with 200 | not executed | Affiliates.ApproveLeavesPendingAsWritten | Affiliates.Approve |
| app/Http/Controllers/AffiliateController.php:447-459 | of the four columns written only `is_active` is mass-assignable, so the reward is deactivated but not rejected, and the response fails on the missing `approvedBy` relation | rejecting any pending reward with a reason | the reward is rejected with the reason and approver and returned with 200 | not executed | Affiliates.RejectAsWrittenAgrees | Affiliates.Reject |
| app/Http/Controllers/AffiliateController.php:343-369 | `my_rank` counts groups straight from the aggregate, including a group of rewards with no owner, while the listing joins users and drops it | one approved reward without an owner that earned more than the caller's only reward | the caller's rank among the listed participants | not executed | Leaderboard.NullOwnerRankExceedsParticipants | Leaderboard.ListedRankBound |
| app/Services/FormService.php:17-25 | the title is passed as `name`, which is not fillable, so the NOT NULL `title` is never set and the insert fails | any creation request, e.g. one with only a name | the form is stored with the given name as its title | not executed | FormService.CreateFailsAsWritten | FormService.CreateFormWithSections |
| app/Services/FormService.php:65-67 | the copy's title is written to `name`, which is not a column of the forms table, so the save fails | duplicating any existing form | the copy is titled "<title> (Copy)" | not executed | FormService.DuplicateFailsAsWritten | FormService.DuplicateForm |
| app/Services/AnnouncementService.php:32-41 | the insert never sets `identifier`, a NOT NULL column without default, so every validated row fails | any complete CSV row with a phone | the row is stored with the identifier it was validated for | not executed | Announcements.CompleteRowOnlyImportedWhenCorrected | Announcements.Import |
| app/Services/AnnouncementService.php:132-140 | `orWhere` makes the query (form ∧ phone) ∨ email; with only an email it accepts every submission of the form | a row with only an email, where the form's first submission has another email | match the submission of the same form whose phone or email agrees | not executed | Announcements.EmailOnlyLinksWrongSubmission | Announcements.FindMatchingSubmission |
