/**
 * The schema view a form presents to submitters: its persisted sections,
 * followed, when payment or referral is enabled, by one virtual section
 * holding a pricing-tier choice and/or a referral-code field. The virtual
 * parts are built on every read and never stored.
 */
module FormView {
  import opened Wrappers
  import opened Text
  import opened Money
  import opened Schema

  const VirtualSectionId := "virtual-payment-affiliate-section"
  const VirtualSectionOrder := 9999
  const AffiliateFieldName := "affiliate_code"
  const TierFieldName := "pricing_tier_id"

  /**
   * The id the virtual fields carry. A field's `id` is not mass-assignable,
   * so the id the view passes is dropped and the field has none; the empty
   * string stands for that absent id.
   */
  const NoFieldId := ""

  /** The label, placeholder and help text of the two virtual fields. */
  const AffiliateLabel := "Kode Referral (Opsional)"
  const AffiliatePlaceholder := "Masukkan kode referral jika ada"
  const AffiliateHelp := "Dapatkan diskon atau benefit dengan memasukkan kode referral dari teman Anda"
  const TierLabelText := "Pilih Paket"
  const TierPlaceholder := "Pilih paket yang sesuai"
  const TierHelp := "Pilih paket pembayaran sesuai kebutuhan Anda"

  /** A form takes referral codes exactly when its referral flag is set. */
  predicate HasAffiliateField(form: Form) {
    form.enableAffiliate
  }

  /** The optional referral-code field injected into the view. */
  function VirtualAffiliateField(sectionId: Option<string>): (f: Field)
    ensures f.name == AffiliateFieldName && f.fieldType == AffiliateField
    ensures !f.isRequired && f.options.None? && f.validationRules.None?
    ensures f.sectionId == sectionId && f.id == NoFieldId
  {
    Field(
      NoFieldId, sectionId, AffiliateLabel, AffiliateFieldName,
      AffiliateField, Some(AffiliatePlaceholder), Some(AffiliateHelp),
      false, 1, None, None)
  }

  /** The required pricing-tier choice injected into the view, before its options are filled in. */
  function VirtualTierField(sectionId: Option<string>): (f: Field)
    ensures f.name == TierFieldName && f.fieldType == SelectField
    ensures f.isRequired && f.options.None? && f.validationRules.None?
    ensures f.sectionId == sectionId && f.id == NoFieldId
  {
    Field(
      NoFieldId, sectionId, TierLabelText, TierFieldName,
      SelectField, Some(TierPlaceholder), Some(TierHelp),
      true, 0, None, None)
  }

  /** One choice per tier: the tier id as value, "name - Rp price" as label, and the price. */
  function TierOptions(tiers: seq<PricingTier>): (opts: seq<FieldOption>)
    ensures |opts| == |tiers|
    ensures forall i :: 0 <= i < |tiers| ==>
      opts[i].value == tiers[i].id && opts[i].labelText == TierLabel(tiers[i]) && opts[i].price == Some(tiers[i].price)
  {
    seq(|tiers|, i requires 0 <= i < |tiers| => FieldOption(tiers[i].id, TierLabel(tiers[i]), Some(tiers[i].price)))
  }

  /** "name - Rp price", the price in whole rupiah with '.' between thousands. */
  function TierLabel(tier: PricingTier): (r: string)
    ensures |r| > |tier.name| + |RpSeparator|
    ensures r[..|tier.name|] == tier.name && r[|tier.name|..|tier.name| + |RpSeparator|] == RpSeparator
    ensures Undot(r[|tier.name| + |RpSeparator|..]) == IntToString(RoundHalfAway(tier.price as real / 100.0))
  {
    var p := FormatRupiah(tier.price);
    ThreeParts(tier.name, RpSeparator, p);
    tier.name + RpSeparator + p
  }

  /** Each part of a three-way concatenation is found at its offset. */
  lemma ThreeParts(a: string, b: string, c: string)
    ensures (a + b + c)[..|a|] == a
    ensures (a + b + c)[|a|..|a| + |b|] == b
    ensures (a + b + c)[|a| + |b|..] == c
  {
    assert (a + b + c)[..|a|] == a;
    assert (a + b + c)[|a|..|a| + |b|] == b;
  }

  const RpSeparator := " - Rp "

  const BothTitle := "Pembayaran & Referral"
  const BothDescription := "Pilih paket pembayaran dan masukkan kode referral jika ada"
  const PaymentTitle := "Informasi Pembayaran"
  const PaymentDescription := "Pilih paket pembayaran yang sesuai dengan kebutuhan Anda"
  const AffiliateTitle := "Kode Referral"
  const AffiliateDescription := "Masukkan kode referral untuk mendapatkan benefit"

  /** The virtual section's title and description for the two flags. */
  function VirtualHeading(payment: bool, affiliate: bool): (string, string) {
    if payment && affiliate then (BothTitle, BothDescription)
    else if payment then (PaymentTitle, PaymentDescription)
    else (AffiliateTitle, AffiliateDescription)
  }

  /**
   * The fields of the virtual section: the required tier choice iff payment
   * is on, followed by the optional referral field iff referral is on; the
   * tier choice lists exactly the active tiers, in order, by id and price.
   */
  function VirtualFields(form: Form): (fs: seq<Field>)
    ensures |fs| == (if form.enablePayment then 1 else 0) + (if form.enableAffiliate then 1 else 0)
    ensures form.enablePayment ==>
      && fs[0].name == TierFieldName && fs[0].isRequired && fs[0].fieldType == SelectField
      && fs[0].options == Some(TierOptions(ActiveTiers(form.pricingTiers)))
    ensures form.enableAffiliate ==>
      && fs[|fs| - 1].name == AffiliateFieldName && !fs[|fs| - 1].isRequired
      && fs[|fs| - 1].fieldType == AffiliateField
  {
    (if form.enablePayment
     then [VirtualTierField(Some(VirtualSectionId)).(options := Some(TierOptions(ActiveTiers(form.pricingTiers))))]
     else [])
    + (if form.enableAffiliate then [VirtualAffiliateField(Some(VirtualSectionId))] else [])
  }

  /**
   * The sections a form shows: the persisted ones in order, then one
   * virtual section when payment or referral is enabled.
   */
  function SectionsWithAffiliate(form: Form): (view: seq<Section>)
    ensures !form.enablePayment && !form.enableAffiliate ==> view == form.sections
    ensures form.enablePayment || form.enableAffiliate ==>
      && |view| == |form.sections| + 1
      && view[..|form.sections|] == form.sections
      && view[|form.sections|].id == VirtualSectionId
      && view[|form.sections|].order == VirtualSectionOrder
      && view[|form.sections|].title == VirtualHeading(form.enablePayment, form.enableAffiliate).0
  {
    if form.enablePayment || form.enableAffiliate then
      var (title, description) := VirtualHeading(form.enablePayment, form.enableAffiliate);
      var virtual := Section(VirtualSectionId, form.id, title, Some(description), VirtualSectionOrder, VirtualFields(form));
      assert (form.sections + [virtual])[..|form.sections|] == form.sections;
      form.sections + [virtual]
    else
      form.sections
  }

  /** The three headings differ, so the title tells which flags are set. */
  lemma HeadingIdentifiesFlags(p1: bool, a1: bool, p2: bool, a2: bool)
    requires p1 || a1
    requires p2 || a2
    requires VirtualHeading(p1, a1).0 == VirtualHeading(p2, a2).0
    ensures p1 == p2 && a1 == a2
  {
    assert |BothTitle| == 21 && |PaymentTitle| == 20 && |AffiliateTitle| == 13;
  }

  /**
   * The virtual section holds the required tier choice iff payment is on,
   * followed by the optional referral field iff referral is on; the tier
   * choice lists exactly the active tiers, in order, by id and price.
   */
  lemma VirtualSectionFields(form: Form)
    requires form.enablePayment || form.enableAffiliate
    ensures var fs := SectionsWithAffiliate(form)[|form.sections|].fields;
      && |fs| == (if form.enablePayment then 1 else 0) + (if form.enableAffiliate then 1 else 0)
      && (form.enablePayment ==>
          && fs[0].name == TierFieldName && fs[0].isRequired && fs[0].fieldType == SelectField
          && fs[0].options.Some?
          && var active := ActiveTiers(form.pricingTiers);
             && |fs[0].options.value| == |active|
             && forall i :: 0 <= i < |active| ==>
                  fs[0].options.value[i].value == active[i].id
                  && fs[0].options.value[i].price == Some(active[i].price))
      && (form.enableAffiliate ==>
          && fs[|fs| - 1].name == AffiliateFieldName && !fs[|fs| - 1].isRequired
          && fs[|fs| - 1].fieldType == AffiliateField)
  {
    assert SectionsWithAffiliate(form)[|form.sections|].fields == VirtualFields(form);
  }
}
