/**
 * The amounts of a submission: the base price of the chosen pricing tier
 * and the sum of the chosen upsells, both zero on a form without payment.
 */
module Pricing {
  import opened Wrappers
  import opened Money
  import opened Seqs
  import opened Schema
  import opened Http

  datatype Amounts = Amounts(base: Cents, upsell: Cents, total: Cents)

  /** A tier fetched by primary key alone (`PricingTier::findOrFail`): any form's tier, active or not. */
  function FindTier(tiers: seq<PricingTier>, id: string): (r: Option<nat>)
    ensures r.Some? ==> r.value < |tiers| && tiers[r.value].id == id
    ensures r.None? <==> forall j :: 0 <= j < |tiers| ==> tiers[j].id != id
  {
    FirstIndex(tiers, (t: PricingTier) => t.id == id)
  }

  /** The upsell rows `whereIn('id', selected)->where(enabled)` returns. */
  function Chosen(selected: seq<string>): Upsell -> bool {
    (u: Upsell) => u.id in selected && u.isActive
  }

  function UpsellPrice(u: Upsell): int {
    u.price
  }

  /** The sum of the chosen rows' prices: each row once, however often its id is selected. */
  function UpsellSum(upsells: seq<Upsell>, selected: seq<string>): Cents {
    IntSumWhere(upsells, Chosen(selected), UpsellPrice)
  }

  /**
   * The amounts for a request. Without payment all three are zero; with
   * payment, a tier id that names no tier is 404, no tier id is a base of 0,
   * no selection is an upsell amount of 0, and the total is their sum.
   */
  function CalculateAmounts(form: Form, tierId: Option<string>, selected: Option<seq<string>>,
                            tiers: seq<PricingTier>, upsells: seq<Upsell>): (r: Result<Amounts, int>)
    ensures !form.enablePayment ==> r == Success(Amounts(0, 0, 0))
    ensures r.Failure? <==>
      form.enablePayment && tierId.Some? && forall j :: 0 <= j < |tiers| ==> tiers[j].id != tierId.value
    ensures r.Failure? ==> r.error == NotFound
    ensures r.Success? ==> r.value.total == r.value.base + r.value.upsell
    ensures r.Success? && form.enablePayment ==>
      && (tierId.None? ==> r.value.base == 0)
      && (tierId.Some? ==> r.value.base == tiers[FindTier(tiers, tierId.value).value].price)
      && (selected.None? ==> r.value.upsell == 0)
      && (selected.Some? ==> r.value.upsell == UpsellSum(upsells, selected.value))
  {
    if !form.enablePayment then Success(Amounts(0, 0, 0))
    else
      var base :- match tierId
        case None => Success(0)
        case Some(id) =>
          match FindTier(tiers, id)
          case None => Failure(NotFound)
          case Some(i) => Success(tiers[i].price);
      var upsell := if selected.Some? then UpsellSum(upsells, selected.value) else 0;
      Success(Amounts(base, upsell, base + upsell))
  }

  /** Only the set of selected ids matters: order and repetition do not. */
  lemma UpsellSumBySet(upsells: seq<Upsell>, s1: seq<string>, s2: seq<string>)
    requires forall x :: x in s1 <==> x in s2
    ensures UpsellSum(upsells, s1) == UpsellSum(upsells, s2)
  {
    IntSumSame(upsells, Chosen(s1), Chosen(s2), UpsellPrice);
  }

  /** Selecting an id twice counts its upsell once. */
  lemma UpsellSelectedTwice(upsells: seq<Upsell>, selected: seq<string>, id: string)
    requires id in selected
    ensures UpsellSum(upsells, selected + [id]) == UpsellSum(upsells, selected)
  {
    UpsellSumBySet(upsells, selected + [id], selected);
  }

  /** An id that names no enabled upsell contributes nothing. */
  lemma UpsellUnknownId(upsells: seq<Upsell>, selected: seq<string>, id: string)
    requires forall j :: 0 <= j < |upsells| && upsells[j].id == id ==> !upsells[j].isActive
    ensures UpsellSum(upsells, selected + [id]) == UpsellSum(upsells, selected)
  {
    IntSumSame(upsells, Chosen(selected + [id]), Chosen(selected), UpsellPrice);
  }

  /** With non-negative prices, selecting more never costs less. */
  lemma UpsellSumMono(upsells: seq<Upsell>, s1: seq<string>, s2: seq<string>)
    requires forall j :: 0 <= j < |upsells| ==> upsells[j].price >= 0
    requires forall x :: x in s1 ==> x in s2
    ensures 0 <= UpsellSum(upsells, s1) <= UpsellSum(upsells, s2)
  {
    IntSumMono(upsells, Chosen(s1), Chosen(s2), UpsellPrice);
    IntSumMono(upsells, Chosen([]), Chosen(s1), UpsellPrice);
    IntSumSame(upsells, Chosen([]), (u: Upsell) => false, UpsellPrice);
    IntSumNone(upsells, UpsellPrice);
  }

  lemma {:induction false} IntSumNone(upsells: seq<Upsell>, f: Upsell -> int)
    ensures IntSumWhere(upsells, (u: Upsell) => false, f) == 0
  {
    if |upsells| > 0 {
      IntSumNone(upsells[1..], f);
    }
  }

  /**
   * The tier is fetched by id alone: a tier of another form, and an inactive
   * one, still sets the base amount.
   */
  lemma TierOwnershipUnchecked(form: Form, t: PricingTier)
    requires form.enablePayment && t.formId != form.id && !t.isActive
    ensures CalculateAmounts(form, Some(t.id), None, [t], []) == Success(Amounts(t.price, 0, t.price))
  {
  }
}
