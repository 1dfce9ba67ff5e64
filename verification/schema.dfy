/**
 * The form schema: forms own ordered sections, sections own ordered fields,
 * and forms own ordered pricing tiers and upsells. Each sequence holds its
 * relation in the order the relation loads it (`orderBy('order')`).
 */
module Schema {
  import opened Wrappers
  import opened Money
  import opened Seqs

  /** The field types of the `fields.type` column. */
  datatype FieldType =
    | TextField | EmailField | PhoneField | TextareaField | NumberField | SelectField
    | CheckboxField | RadioField | DateField | FileField | AffiliateField

  /** One entry of a choice list; tier options also carry the tier's price. */
  datatype FieldOption = FieldOption(value: string, labelText: string, price: Option<Cents>)

  datatype Field = Field(
    id: string,
    sectionId: Option<string>,
    labelText: string,
    name: string,
    fieldType: FieldType,
    placeholder: Option<string>,
    helpText: Option<string>,
    isRequired: bool,
    order: int,
    options: Option<seq<FieldOption>>,
    validationRules: Option<seq<string>>)

  datatype Section = Section(
    id: string,
    formId: string,
    title: string,
    description: Option<string>,
    order: int,
    fields: seq<Field>)

  datatype PricingTier = PricingTier(
    id: string,
    formId: string,
    name: string,
    description: Option<string>,
    price: Cents,
    currency: string,
    isActive: bool,
    isDefault: bool,
    order: int)

  /**
   * An upsell row. The submission service filters on `enabled` and sums
   * `upsell_price`; this model reads those as the row's active flag and price.
   */
  datatype Upsell = Upsell(
    id: string,
    formId: string,
    name: string,
    description: Option<string>,
    price: Cents,
    currency: string,
    isActive: bool,
    order: int)

  datatype Form = Form(
    id: string,
    categoryId: Option<string>,
    title: string,
    slug: string,
    description: Option<string>,
    isActive: bool,
    enablePayment: bool,
    enableAffiliate: bool,
    sections: seq<Section>,
    pricingTiers: seq<PricingTier>,
    upsells: seq<Upsell>)

  /** The first form with this slug that is active (`where slug, is_active ->first()`). */
  function FindActiveBySlug(forms: seq<Form>, slug: string): (r: Option<Form>)
    ensures r.Some? ==> r.value in forms && r.value.slug == slug && r.value.isActive
    ensures r.None? ==> forall f :: f in forms ==> !(f.slug == slug && f.isActive)
  {
    if |forms| == 0 then None
    else if forms[0].slug == slug && forms[0].isActive then Some(forms[0])
    else FindActiveBySlug(forms[1..], slug)
  }

  function TierActive(t: PricingTier): bool {
    t.isActive
  }

  function UpsellActive(u: Upsell): bool {
    u.isActive
  }

  /**
   * The tiers of `tiers` that are active, in their order and one entry per
   * row: the generic order-preserving filter over the active flag.
   */
  function ActiveTiers(tiers: seq<PricingTier>): (r: seq<PricingTier>)
    ensures forall t :: t in r <==> t in tiers && t.isActive
    ensures |r| <= |tiers|
    ensures r == Filter(tiers, TierActive)
  {
    if |tiers| == 0 then []
    else (if tiers[0].isActive then [tiers[0]] else []) + ActiveTiers(tiers[1..])
  }

  /** Keeping the active tiers of the active tiers keeps them all. */
  lemma {:induction false} ActiveTiersIdempotent(tiers: seq<PricingTier>)
    ensures ActiveTiers(ActiveTiers(tiers)) == ActiveTiers(tiers)
  {
    if |tiers| > 0 {
      ActiveTiersIdempotent(tiers[1..]);
      var head := if tiers[0].isActive then [tiers[0]] else [];
      var rest := ActiveTiers(tiers[1..]);
      if tiers[0].isActive {
        assert (head + rest)[1..] == rest;
      } else {
        assert head + rest == rest;
      }
    }
  }

  /** The upsells of `upsells` that are active, in their order and one entry per row. */
  function ActiveUpsells(upsells: seq<Upsell>): (r: seq<Upsell>)
    ensures forall u :: u in r <==> u in upsells && u.isActive
    ensures |r| <= |upsells|
    ensures r == Filter(upsells, UpsellActive)
  {
    if |upsells| == 0 then []
    else (if upsells[0].isActive then [upsells[0]] else []) + ActiveUpsells(upsells[1..])
  }

  /** Every field of the form, section by section. */
  function AllFields(sections: seq<Section>): seq<Field> {
    if |sections| == 0 then [] else sections[0].fields + AllFields(sections[1..])
  }
}
