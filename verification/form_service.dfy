/**
 * The form service as tree transformations: creating a form with its
 * sections and fields from a request, duplicating a form with everything
 * it owns, and the public lookup by slug. Slugging, the random slug
 * suffix and the database's new ids are parameters.
 */
module FormService {
  import opened Wrappers
  import opened Text
  import opened Schema
  import opened FormView
  import opened Http

  datatype FieldInput = FieldInput(
    labelText: string,
    name: Option<string>,
    fieldType: FieldType,
    placeholder: Option<string>,
    helpText: Option<string>,
    isRequired: Option<bool>,
    required: Option<bool>,
    order: Option<int>,
    options: Option<seq<FieldOption>>,
    validationRules: Option<seq<string>>)

  datatype SectionInput = SectionInput(
    title: string,
    description: Option<string>,
    order: Option<int>,
    fields: Option<seq<FieldInput>>)

  /** The create request; absent keys are `None`. */
  datatype FormInput = FormInput(
    name: string,
    description: Option<string>,
    slug: Option<string>,
    isActive: Option<bool>,
    enablePayment: Option<bool>,
    enableAffiliate: Option<bool>,
    categoryId: Option<string>,
    sections: Option<seq<SectionInput>>)

  /**
   * A created field: the name defaults to the slug of the label,
   * `is_required` falls back to `required` and then to false, the order
   * to 0.
   */
  function NewField(input: FieldInput, sectionId: string, id: string, slugify: string -> string): (f: Field)
    ensures f.name == (if input.name.Some? then input.name.value else slugify(input.labelText))
    ensures f.isRequired <==>
      (if input.isRequired.Some? then input.isRequired.value
       else input.required.Some? && input.required.value)
    ensures f.order == (if input.order.Some? then input.order.value else 0)
    ensures f.sectionId == Some(sectionId) && f.id == id && f.labelText == input.labelText
  {
    Field(id, Some(sectionId), input.labelText, input.name.GetOr(slugify(input.labelText)), input.fieldType,
          input.placeholder, input.helpText, Coalesce(input.isRequired, input.required).GetOr(false),
          input.order.GetOr(0), input.options, input.validationRules)
  }

  function NewSection(input: SectionInput, formId: string, index: nat, sectionIds: nat -> string,
                      fieldIds: (nat, nat) -> string, slugify: string -> string): (s: Section)
    ensures s.formId == formId && s.id == sectionIds(index) && s.title == input.title
    ensures s.order == (if input.order.Some? then input.order.value else 0)
    ensures |s.fields| == (if input.fields.Some? then |input.fields.value| else 0)
    ensures forall k :: 0 <= k < |s.fields| ==>
      s.fields[k] == NewField(input.fields.value[k], s.id, fieldIds(index, k), slugify)
  {
    var fs := input.fields.GetOr([]);
    var id := sectionIds(index);
    Section(id, formId, input.title, input.description, input.order.GetOr(0),
            seq(|fs|, k requires 0 <= k < |fs| => NewField(fs[k], id, fieldIds(index, k), slugify)))
  }

  /**
   * The slug a new form gets: the one supplied, else the slug of its name;
   * the model's creating hook then replaces a value PHP considers empty
   * with the slug of the title.
   */
  function NewSlug(input: FormInput, slugify: string -> string): (r: string)
    ensures input.slug.Some? && Truthy(input.slug.value) ==> r == input.slug.value
    ensures input.slug.None? ==> r == slugify(input.name)
  {
    var supplied := input.slug.GetOr(slugify(input.name));
    if Truthy(supplied) then supplied else slugify(input.name)
  }

  /**
   * Creating a form: flags default to active, no payment, no referral; every
   * requested section is created in request order with its fields; the form
   * starts with no tiers and no upsells.
   */
  function CreateFormWithSections(input: FormInput, formId: string, sectionIds: nat -> string,
                                  fieldIds: (nat, nat) -> string, slugify: string -> string): (f: Form)
    ensures f.id == formId && f.title == input.name && f.slug == NewSlug(input, slugify)
    ensures f.isActive == (input.isActive.None? || input.isActive.value)
    ensures f.enablePayment == (input.enablePayment.Some? && input.enablePayment.value)
    ensures f.enableAffiliate == (input.enableAffiliate.Some? && input.enableAffiliate.value)
    ensures |f.sections| == (if input.sections.Some? then |input.sections.value| else 0)
    ensures forall k :: 0 <= k < |f.sections| ==>
      f.sections[k] == NewSection(input.sections.value[k], formId, k, sectionIds, fieldIds, slugify)
    ensures f.pricingTiers == [] && f.upsells == []
  {
    var ss := input.sections.GetOr([]);
    Form(formId, input.categoryId, input.name, NewSlug(input, slugify), input.description,
         input.isActive.GetOr(true), input.enablePayment.GetOr(false), input.enableAffiliate.GetOr(false),
         seq(|ss|, k requires 0 <= k < |ss| => NewSection(ss[k], formId, k, sectionIds, fieldIds, slugify)),
         [], [])
  }

  /** A request with only a name creates an active form with neither payment nor referral, and no sections. */
  lemma BareRequestDefaults(name: string, formId: string, sectionIds: nat -> string,
                            fieldIds: (nat, nat) -> string, slugify: string -> string)
    ensures var f := CreateFormWithSections(FormInput(name, None, None, None, None, None, None, None),
                                            formId, sectionIds, fieldIds, slugify);
      f.isActive && !f.enablePayment && !f.enableAffiliate && f.sections == [] && f.slug == slugify(name)
  {
  }

  /** An explicit false is kept, not replaced by the default. */
  lemma ExplicitFalseKept(input: FormInput, formId: string, sectionIds: nat -> string,
                          fieldIds: (nat, nat) -> string, slugify: string -> string)
    requires input.isActive == Some(false)
    ensures !CreateFormWithSections(input, formId, sectionIds, fieldIds, slugify).isActive
  {
  }

  /** A field that says `required: true` and nothing under `is_required` is created required. */
  lemma RequiredAlias(input: FieldInput, sectionId: string, id: string, slugify: string -> string)
    requires input.isRequired.None? && input.required == Some(true)
    ensures NewField(input, sectionId, id, slugify).isRequired
  {
  }

  /** A row with its identity erased: what a copy must reproduce. */
  function EraseField(f: Field): Field {
    f.(id := "", sectionId := None)
  }

  function EraseSection(s: Section): Section {
    s.(id := "", formId := "", fields := seq(|s.fields|, k requires 0 <= k < |s.fields| => EraseField(s.fields[k])))
  }

  function EraseTier(t: PricingTier): PricingTier {
    t.(id := "", formId := "", isDefault := false)
  }

  function EraseUpsell(u: Upsell): Upsell {
    u.(id := "", formId := "")
  }

  /** New ids for a copy: the form's, and one per section, field, tier and upsell by position. */
  datatype CopyIds = CopyIds(
    form: string,
    sections: nat -> string,
    fields: (nat, nat) -> string,
    tiers: nat -> string,
    upsells: nat -> string)

  function CopySection(s: Section, formId: string, index: nat, ids: CopyIds): Section {
    var id := ids.sections(index);
    s.(id := id, formId := formId,
       fields := seq(|s.fields|, k requires 0 <= k < |s.fields| =>
                       s.fields[k].(id := ids.fields(index, k), sectionId := Some(id))))
  }

  /** The copy's title: the original's followed by " (Copy)". */
  function CopyTitle(title: string): string {
    title + " (Copy)"
  }

  /**
   * Duplicating a form: a missing form is none; otherwise the copy is
   * titled "<title> (Copy)", slugged from that title plus "-" and five
   * random characters, and owns one copy of every section with all its
   * fields, every tier and every upsell, in order, none of the tiers
   * marked default. Everything else is copied unchanged.
   */
  function DuplicateForm(forms: seq<Form>, formId: string, ids: CopyIds, random5: string,
                         slugify: string -> string): (r: Option<Form>)
    ensures r.None? <==> forall j :: 0 <= j < |forms| ==> forms[j].id != formId
    ensures r.Some? ==> exists j :: 0 <= j < |forms| && forms[j].id == formId && DuplicateOf(r.value, forms[j], ids.form)
    ensures r.Some? ==> r.value.title == CopyTitle(FindForm(forms, formId).value.title)
    ensures r.Some? ==> r.value.slug == slugify(r.value.title) + "-" + random5
  {
    match FindForm(forms, formId)
    case None => None
    case Some(original) =>
      var copy := Copy(original, ids, random5, slugify);
      CopyIsDuplicate(original, ids, random5, slugify);
      Some(copy)
  }

  function FindForm(forms: seq<Form>, id: string): (r: Option<Form>)
    ensures r.Some? ==> r.value.id == id && exists j :: 0 <= j < |forms| && forms[j] == r.value
    ensures r.None? <==> forall j :: 0 <= j < |forms| ==> forms[j].id != id
  {
    if |forms| == 0 then None
    else if forms[0].id == id then Some(forms[0])
    else
      var rest := FindForm(forms[1..], id);
      assert forall j :: 1 <= j < |forms| ==> forms[j] == forms[1..][j - 1];
      rest
  }

  function Copy(f: Form, ids: CopyIds, random5: string, slugify: string -> string): Form {
    var title := CopyTitle(f.title);
    f.(id := ids.form, title := title, slug := slugify(title) + "-" + random5,
       sections := seq(|f.sections|, k requires 0 <= k < |f.sections| => CopySection(f.sections[k], ids.form, k, ids)),
       pricingTiers := seq(|f.pricingTiers|, k requires 0 <= k < |f.pricingTiers| =>
                             f.pricingTiers[k].(id := ids.tiers(k), formId := ids.form, isDefault := false)),
       upsells := seq(|f.upsells|, k requires 0 <= k < |f.upsells| =>
                        f.upsells[k].(id := ids.upsells(k), formId := ids.form)))
  }

  /**
   * `copy` duplicates `original` under the new id: the same sections,
   * fields, tiers and upsells one for one once ids are erased, every
   * owned row pointing at its new parent, no default tier, and the form's
   * other attributes unchanged.
   */
  predicate DuplicateOf(copy: Form, original: Form, newId: string) {
    && copy.id == newId
    && copy.categoryId == original.categoryId && copy.description == original.description
    && copy.isActive == original.isActive && copy.enablePayment == original.enablePayment
    && copy.enableAffiliate == original.enableAffiliate
    && |copy.sections| == |original.sections|
    && (forall k :: 0 <= k < |copy.sections| ==>
          && EraseSection(copy.sections[k]) == EraseSection(original.sections[k])
          && copy.sections[k].formId == newId
          && (forall m :: 0 <= m < |copy.sections[k].fields| ==>
                copy.sections[k].fields[m].sectionId == Some(copy.sections[k].id)))
    && |copy.pricingTiers| == |original.pricingTiers|
    && (forall k :: 0 <= k < |copy.pricingTiers| ==>
          && EraseTier(copy.pricingTiers[k]) == EraseTier(original.pricingTiers[k])
          && copy.pricingTiers[k].formId == newId && !copy.pricingTiers[k].isDefault)
    && |copy.upsells| == |original.upsells|
    && (forall k :: 0 <= k < |copy.upsells| ==>
          && EraseUpsell(copy.upsells[k]) == EraseUpsell(original.upsells[k])
          && copy.upsells[k].formId == newId)
  }

  lemma CopyIsDuplicate(f: Form, ids: CopyIds, random5: string, slugify: string -> string)
    ensures DuplicateOf(Copy(f, ids, random5, slugify), f, ids.form)
  {
    var c := Copy(f, ids, random5, slugify);
    forall k | 0 <= k < |c.sections|
      ensures EraseSection(c.sections[k]) == EraseSection(f.sections[k])
    {
      var s := f.sections[k];
      var cs := c.sections[k];
      assert cs == CopySection(s, ids.form, k, ids);
      assert |cs.fields| == |s.fields|;
      assert forall m :: 0 <= m < |s.fields| ==> EraseField(cs.fields[m]) == EraseField(s.fields[m]);
    }
  }

  /** Duplicating a copy appends " (Copy)" again. */
  lemma CopyOfCopy(title: string)
    ensures CopyTitle(CopyTitle(title)) == title + " (Copy) (Copy)"
  {
  }

  /**
   * The public form: the first active form with the slug, carrying only
   * its active tiers and upsells in their order; none when no active form
   * has the slug.
   */
  function GetPublicForm(forms: seq<Form>, slug: string): (r: Option<Form>)
    ensures r.None? <==> forall f :: f in forms ==> !(f.slug == slug && f.isActive)
    ensures r.Some? ==> r.value.pricingTiers == ActiveTiers(FindActiveBySlug(forms, slug).value.pricingTiers)
    ensures r.Some? ==> r.value.upsells == ActiveUpsells(FindActiveBySlug(forms, slug).value.upsells)
    ensures r.Some? ==> r.value.id == FindActiveBySlug(forms, slug).value.id
    ensures r.Some? ==> r.value.slug == slug && r.value.isActive
    ensures r.Some? ==> forall t :: t in r.value.pricingTiers <==>
      t in FindActiveBySlug(forms, slug).value.pricingTiers && t.isActive
    ensures r.Some? ==> forall u :: u in r.value.upsells <==>
      u in FindActiveBySlug(forms, slug).value.upsells && u.isActive
    ensures r.Some? ==> r.value.sections == FindActiveBySlug(forms, slug).value.sections
  {
    match FindActiveBySlug(forms, slug)
    case None => None
    case Some(f) => Some(f.(pricingTiers := ActiveTiers(f.pricingTiers), upsells := ActiveUpsells(f.upsells)))
  }

  /**
   * A created form that is active, under a slug no stored form has, is
   * what the public lookup returns for that slug, sections included.
   */
  lemma CreatedFormIsPublic(forms: seq<Form>, input: FormInput, formId: string, sectionIds: nat -> string,
                            fieldIds: (nat, nat) -> string, slugify: string -> string)
    requires input.isActive.None? || input.isActive.value
    requires forall g :: g in forms ==> g.slug != NewSlug(input, slugify)
    ensures var f := CreateFormWithSections(input, formId, sectionIds, fieldIds, slugify);
      GetPublicForm(forms + [f], f.slug) == Some(f)
  {
    var f := CreateFormWithSections(input, formId, sectionIds, fieldIds, slugify);
    var found := FindActiveBySlug(forms + [f], f.slug);
    assert f in forms + [f];
    assert found.Some?;
    assert found.value == f;
  }

  /**
   * The public form shows the same sections as the stored form: filtering
   * the tiers first changes nothing in the virtual tier choice.
   */
  lemma PublicFormShowsSameSections(forms: seq<Form>, slug: string)
    requires GetPublicForm(forms, slug).Some?
    ensures SectionsWithAffiliate(GetPublicForm(forms, slug).value)
      == SectionsWithAffiliate(FindActiveBySlug(forms, slug).value)
  {
    var stored := FindActiveBySlug(forms, slug).value;
    ActiveTiersIdempotent(stored.pricingTiers);
  }

  /** The forms table's columns. */
  const FormColumns: set<string> := {
    "id", "category_id", "title", "slug", "description", "cover_image", "enable_payment",
    "enable_affiliate", "is_active", "published_at", "start_date", "end_date", "max_submissions",
    "settings", "created_at", "updated_at", "deleted_at"}

  /** The columns that are NOT NULL without a default; the model itself generates the id. */
  const FormRequiredColumns: set<string> := {"title", "slug"}

  /** The attributes mass assignment lets through on a form. */
  const FormFillable: set<string> := {
    "category_id", "title", "slug", "description", "cover_image", "enable_payment", "enable_affiliate",
    "is_active", "published_at", "start_date", "end_date", "max_submissions", "settings"}

  /** The attributes the service passes when creating a form. */
  const CreateKeys: set<string> := {
    "name", "description", "slug", "is_active", "enable_payment", "enable_affiliate", "category_id"}

  /** The attributes a duplicate saves: every column of the replicated row, plus `name`. */
  const DuplicateKeys: set<string> := FormColumns + {"name"}

  /** A form row is written iff it names only columns and sets every required one. */
  predicate FormRowAccepted(written: set<string>) {
    written <= FormColumns && FormRequiredColumns <= written
  }

  /**
   * Creation as written: the attributes pass the fillable filter, which
   * drops the title written under `name`, before the insert.
   */
  function CreateFormWithSectionsAsWritten(input: FormInput, formId: string, sectionIds: nat -> string,
                                           fieldIds: (nat, nat) -> string, slugify: string -> string)
    : (r: Result<Form, int>)
    ensures r.Success? <==> FormRowAccepted(CreateKeys * FormFillable)
    ensures r.Success? ==> r.value == CreateFormWithSections(input, formId, sectionIds, fieldIds, slugify)
    ensures r.Failure? ==> r.error == ServerError
  {
    if FormRowAccepted(CreateKeys * FormFillable) then
      Success(CreateFormWithSections(input, formId, sectionIds, fieldIds, slugify))
    else
      Failure(ServerError)
  }

  /** As written, no form can be created: the title never reaches the insert. */
  lemma CreateFailsAsWritten(input: FormInput, formId: string, sectionIds: nat -> string,
                             fieldIds: (nat, nat) -> string, slugify: string -> string)
    ensures "title" !in CreateKeys * FormFillable
    ensures CreateFormWithSectionsAsWritten(input, formId, sectionIds, fieldIds, slugify) == Failure(ServerError)
  {
    assert "title" !in CreateKeys;
  }

  /**
   * Duplication as written: 404 for a missing form; otherwise the save
   * writes the replicated columns plus `name`, and goes through only if
   * that is a valid row.
   */
  function DuplicateFormAsWritten(forms: seq<Form>, formId: string, ids: CopyIds, random5: string,
                                  slugify: string -> string): (r: Result<Form, int>)
    ensures r.Failure? ==> r.error in {NotFound, ServerError}
    ensures r == Failure(NotFound) <==> forall j :: 0 <= j < |forms| ==> forms[j].id != formId
    ensures r.Success? <==> FindForm(forms, formId).Some? && FormRowAccepted(DuplicateKeys)
    ensures r.Success? ==> Some(r.value) == DuplicateForm(forms, formId, ids, random5, slugify)
  {
    match DuplicateForm(forms, formId, ids, random5, slugify)
    case None => Failure(NotFound)
    case Some(copy) => if FormRowAccepted(DuplicateKeys) then Success(copy) else Failure(ServerError)
  }

  /** As written, an existing form is never duplicated: `name` is not a column. */
  lemma DuplicateFailsAsWritten(forms: seq<Form>, formId: string, ids: CopyIds, random5: string,
                                slugify: string -> string)
    requires FindForm(forms, formId).Some?
    ensures "name" !in FormColumns
    ensures DuplicateFormAsWritten(forms, formId, ids, random5, slugify) == Failure(ServerError)
  {
    assert "name" in DuplicateKeys;
  }

  /** The corrected creation writes a row the table accepts: the title, and a slug. */
  lemma CorrectedCreateAccepted()
    ensures FormRowAccepted((CreateKeys - {"name"} + {"title"}) * FormFillable)
  {
    var written := (CreateKeys - {"name"} + {"title"}) * FormFillable;
    assert "title" in written && "slug" in written;
  }
}
