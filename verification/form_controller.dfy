/**
 * The form controller's own logic: the reorder endpoints, the listing of
 * active forms with the signed-in user's submission status, and the
 * status codes of the public lookup and the duplicate endpoint.
 */
module FormController {
  import opened Wrappers
  import opened Text
  import opened Seqs
  import opened Http
  import opened Schema
  import opened Submissions
  import opened FormService

  /** One entry of a reorder request. */
  datatype ReorderItem = ReorderItem(id: string, order: int)

  /** The order the last entry for `id` gives, if any entry names it. */
  function LastOrder(items: seq<ReorderItem>, id: string): (r: Option<int>)
    ensures r.None? <==> forall k :: 0 <= k < |items| ==> items[k].id != id
    ensures r.Some? ==> exists k :: (0 <= k < |items| && items[k].id == id && items[k].order == r.value &&
      forall m :: k < m < |items| ==> items[m].id != id)
  {
    if |items| == 0 then None
    else
      var rest := LastOrder(items[1..], id);
      assert forall k :: 1 <= k < |items| ==> items[k] == items[1..][k - 1];
      match rest
      case Some(o) =>
        var k' :| 0 <= k' < |items[1..]| && items[1..][k'].id == id && items[1..][k'].order == o &&
          forall m :: k' < m < |items[1..]| ==> items[1..][m].id != id;
        assert items[k' + 1].id == id;
        Some(o)
      case None => if items[0].id == id then Some(items[0].order) else None
  }

  /** One update: every row with the entry's id takes its order. */
  function ApplyItem<T>(rows: seq<T>, item: ReorderItem, idOf: T -> string, withOrder: (T, int) -> T): (r: seq<T>)
    ensures |r| == |rows|
    ensures forall j :: 0 <= j < |rows| ==>
      r[j] == if idOf(rows[j]) == item.id then withOrder(rows[j], item.order) else rows[j]
  {
    seq(|rows|, j requires 0 <= j < |rows| =>
          if idOf(rows[j]) == item.id then withOrder(rows[j], item.order) else rows[j])
  }

  /** The updates of a reorder request, applied in request order. */
  function ApplyItems<T>(rows: seq<T>, items: seq<ReorderItem>, idOf: T -> string, withOrder: (T, int) -> T)
    : seq<T>
    decreases |items|
  {
    if |items| == 0 then rows
    else ApplyItems(ApplyItem(rows, items[0], idOf, withOrder), items[1..], idOf, withOrder)
  }

  /** Setting an order keeps the row's id, and a later setting overrides an earlier one. */
  ghost predicate OrderLaws<T(!new)>(idOf: T -> string, withOrder: (T, int) -> T) {
    && (forall t, o :: idOf(withOrder(t, o)) == idOf(t))
    && (forall t, a, b :: withOrder(withOrder(t, a), b) == withOrder(t, b))
  }

  /**
   * Applying the updates one by one is the same as giving every row named
   * in the request the order of the last entry naming it, and leaving
   * every other row as it was.
   */
  lemma {:induction false} ApplyItemsLastWins<T(!new)>(rows: seq<T>, items: seq<ReorderItem>, idOf: T -> string,
                                                       withOrder: (T, int) -> T)
    requires OrderLaws(idOf, withOrder)
    ensures |ApplyItems(rows, items, idOf, withOrder)| == |rows|
    ensures forall j :: 0 <= j < |rows| ==>
      ApplyItems(rows, items, idOf, withOrder)[j] ==
        match LastOrder(items, idOf(rows[j]))
        case None => rows[j]
        case Some(o) => withOrder(rows[j], o)
    decreases |items|
  {
    if |items| > 0 {
      var next := ApplyItem(rows, items[0], idOf, withOrder);
      ApplyItemsLastWins(next, items[1..], idOf, withOrder);
      assert forall j :: 0 <= j < |rows| ==> idOf(next[j]) == idOf(rows[j]);
    }
  }

  /** The request passes validation: at least one entry, every id names a row, no negative order. */
  predicate ValidReorder<T>(rows: seq<T>, items: seq<ReorderItem>, idOf: T -> string) {
    && |items| >= 1
    && (forall k :: 0 <= k < |items| ==> exists j :: 0 <= j < |rows| && idOf(rows[j]) == items[k].id)
    && (forall k :: 0 <= k < |items| ==> items[k].order >= 0)
  }

  /**
   * A reorder endpoint: 422 and nothing changed when the request fails
   * validation; otherwise 200, every listed row takes the order its last
   * entry gives and every other row is unchanged.
   */
  function Reorder<T(!new)>(rows: seq<T>, items: seq<ReorderItem>, idOf: T -> string, withOrder: (T, int) -> T)
    : (r: (int, seq<T>))
    requires OrderLaws(idOf, withOrder)
    ensures !ValidReorder(rows, items, idOf) ==> r == (Unprocessable, rows)
    ensures ValidReorder(rows, items, idOf) ==> r.0 == Ok
    ensures |r.1| == |rows|
    ensures forall j :: 0 <= j < |rows| && LastOrder(items, idOf(rows[j])).None? ==> r.1[j] == rows[j]
    ensures r.0 == Ok ==> forall j :: 0 <= j < |rows| && LastOrder(items, idOf(rows[j])).Some? ==>
      r.1[j] == withOrder(rows[j], LastOrder(items, idOf(rows[j])).value)
  {
    if !ValidReorder(rows, items, idOf) then (Unprocessable, rows)
    else
      ApplyItemsLastWins(rows, items, idOf, withOrder);
      (Ok, ApplyItems(rows, items, idOf, withOrder))
  }

  function SectionId(s: Section): string { s.id }
  function SectionWithOrder(s: Section, o: int): Section { s.(order := o) }
  function FieldId(f: Field): string { f.id }
  function FieldWithOrder(f: Field, o: int): Field { f.(order := o) }
  function TierId(t: PricingTier): string { t.id }
  function TierWithOrder(t: PricingTier, o: int): PricingTier { t.(order := o) }
  function UpsellId(u: Upsell): string { u.id }
  function UpsellWithOrder(u: Upsell, o: int): Upsell { u.(order := o) }

  function ReorderSections(sections: seq<Section>, items: seq<ReorderItem>): (r: (int, seq<Section>))
    ensures r == Reorder(sections, items, SectionId, SectionWithOrder)
    ensures r.0 == Ok ==> forall j :: 0 <= j < |sections| ==>
      r.1[j].id == sections[j].id && r.1[j].fields == sections[j].fields
  {
    Reorder(sections, items, SectionId, SectionWithOrder)
  }

  function ReorderFields(fields: seq<Field>, items: seq<ReorderItem>): (r: (int, seq<Field>))
    ensures r == Reorder(fields, items, FieldId, FieldWithOrder)
  {
    Reorder(fields, items, FieldId, FieldWithOrder)
  }

  function ReorderPricingTiers(tiers: seq<PricingTier>, items: seq<ReorderItem>): (r: (int, seq<PricingTier>))
    ensures r == Reorder(tiers, items, TierId, TierWithOrder)
  {
    Reorder(tiers, items, TierId, TierWithOrder)
  }

  function ReorderUpsells(upsells: seq<Upsell>, items: seq<ReorderItem>): (r: (int, seq<Upsell>))
    ensures r == Reorder(upsells, items, UpsellId, UpsellWithOrder)
  {
    Reorder(upsells, items, UpsellId, UpsellWithOrder)
  }

  /** Two entries for the same section: the later one decides. */
  lemma LaterEntryWins(s: Section, a: int, b: int)
    requires a >= 0 && b >= 0
    ensures ReorderSections([s], [ReorderItem(s.id, a), ReorderItem(s.id, b)]) == (Ok, [s.(order := b)])
  {
    var items := [ReorderItem(s.id, a), ReorderItem(s.id, b)];
    assert ValidReorder([s], items, SectionId) by {
      assert forall k :: 0 <= k < |items| ==> SectionId([s][0]) == items[k].id;
    }
    assert LastOrder(items, s.id) == Some(b) by {
      assert items[1..] == [ReorderItem(s.id, b)];
      assert LastOrder(items[1..], s.id) == Some(b);
    }
    var r := ReorderSections([s], items);
    assert r.0 == Ok;
    assert |r.1| == 1 && r.1[0] == s.(order := b);
    assert r.1 == [s.(order := b)];
  }

  /** The listing's filters: `category_id` when the key is sent (null matches forms without one), `search` on the title. */
  datatype UserFormsQuery = UserFormsQuery(categoryId: Option<Option<string>>, search: Option<string>)

  function Listed(q: UserFormsQuery): Form -> bool {
    (f: Form) =>
      && f.isActive
      && (q.categoryId.Some? ==> f.categoryId == q.categoryId.value)
      && (q.search.Some? ==> Contains(f.title, q.search.value))
  }

  /** The last of `s` satisfying `p`: `keyBy` keeps the last row per key. */
  function LastIndex<T>(s: seq<T>, p: T -> bool): (r: Option<nat>)
    ensures r.Some? ==> r.value < |s| && p(s[r.value])
    ensures r.Some? ==> forall j :: r.value < j < |s| ==> !p(s[j])
    ensures r.None? <==> forall j :: 0 <= j < |s| ==> !p(s[j])
  {
    if |s| == 0 then None
    else
      var rest := LastIndex(s[1..], p);
      assert forall j :: 1 <= j < |s| ==> s[j] == s[1..][j - 1];
      match rest
      case Some(i) => Some(i + 1)
      case None => if p(s[0]) then Some(0) else None
  }

  function ByUser(formId: string, email: string): Submission -> bool {
    (s: Submission) => s.formId == formId && s.email == Some(email)
  }

  function OfForm(formId: string): Submission -> bool {
    (s: Submission) => s.formId == formId
  }

  datatype FormSummary = FormSummary(
    id: string,
    title: string,
    slug: string,
    description: Option<string>,
    categoryId: Option<string>,
    submissionsCount: nat,
    enablePayment: bool,
    userHasSubmitted: bool,
    userSubmissionStatus: Option<string>,
    userSubmissionId: Option<string>,
    userSubmittedAt: Option<int>)

  /**
   * One listed form with the user's submission: the last submission of
   * the form whose `email` is the user's, if there is one.
   */
  function Summarize(f: Form, subs: seq<Submission>, email: string): (r: FormSummary)
    ensures r.id == f.id && r.title == f.title && r.slug == f.slug && r.enablePayment == f.enablePayment
    ensures r.submissionsCount == Count(subs, OfForm(f.id))
    ensures r.userHasSubmitted <==> exists j :: 0 <= j < |subs| && subs[j].formId == f.id && subs[j].email == Some(email)
    ensures r.userHasSubmitted ==> exists j :: (0 <= j < |subs| && ByUser(f.id, email)(subs[j]) &&
      (forall m :: j < m < |subs| ==> !ByUser(f.id, email)(subs[m])) &&
      r.userSubmissionId == Some(subs[j].id) && r.userSubmissionStatus == Some(subs[j].status) &&
      r.userSubmittedAt == Some(subs[j].createdAt))
    ensures !r.userHasSubmitted ==> r.userSubmissionId.None? && r.userSubmissionStatus.None? && r.userSubmittedAt.None?
  {
    var mine := LastIndex(subs, ByUser(f.id, email));
    FormSummary(f.id, f.title, f.slug, f.description, f.categoryId, Count(subs, OfForm(f.id)), f.enablePayment,
                mine.Some?,
                if mine.Some? then Some(subs[mine.value].status) else None,
                if mine.Some? then Some(subs[mine.value].id) else None,
                if mine.Some? then Some(subs[mine.value].createdAt) else None)
  }

  datatype UserForms = UserForms(data: seq<FormSummary>, total: nat)

  /**
   * The user's form listing: the active forms passing the filters, in
   * table order, each with the user's submission status, and their number.
   */
  function GetUserForms(forms: seq<Form>, subs: seq<Submission>, email: string, q: UserFormsQuery): (r: UserForms)
    ensures r.total == |r.data| == Count(forms, Listed(q))
    ensures forall k :: 0 <= k < |r.data| ==>
      var f := Filter(forms, Listed(q))[k];
      && f.isActive
      && r.data[k].id == f.id
      && (r.data[k].userHasSubmitted <==>
            exists j :: 0 <= j < |subs| && subs[j].formId == f.id && subs[j].email == Some(email))
  {
    var listed := Filter(forms, Listed(q));
    var data := seq(|listed|, k requires 0 <= k < |listed| => Summarize(listed[k], subs, email));
    UserForms(data, |data|)
  }

  /**
   * Submissions created by the submission service leave the `email`
   * column empty (the address goes to `contact_email`), so over such
   * submissions no listed form shows the user as having submitted.
   */
  lemma ServiceSubmissionsNotSeen(forms: seq<Form>, subs: seq<Submission>, email: string, q: UserFormsQuery)
    requires forall j :: 0 <= j < |subs| ==> subs[j].email.None?
    ensures forall k :: 0 <= k < |GetUserForms(forms, subs, email, q).data| ==>
      !GetUserForms(forms, subs, email, q).data[k].userHasSubmitted
  {
  }

  /** An inactive form is never listed, whatever the filters. */
  lemma InactiveNeverListed(forms: seq<Form>, subs: seq<Submission>, email: string, q: UserFormsQuery)
    requires forall j :: 0 <= j < |forms| ==> !forms[j].isActive
    ensures GetUserForms(forms, subs, email, q).total == 0
  {
  }

  /** The public lookup by slug: 404 "Form not found or inactive", else 200 with the form. */
  function GetBySlug(forms: seq<Form>, slug: string): (r: (int, Option<Form>))
    ensures r.0 == NotFound <==> forall f :: f in forms ==> !(f.slug == slug && f.isActive)
    ensures r.0 != NotFound ==> r.0 == Ok && r.1 == GetPublicForm(forms, slug) && r.1.Some?
  {
    match GetPublicForm(forms, slug)
    case None => (NotFound, None)
    case Some(f) => (Ok, Some(f))
  }

  /** The duplicate endpoint: 404 for an unknown form, else 201 with the copy. */
  function Duplicate(forms: seq<Form>, formId: string, ids: CopyIds, random5: string, slugify: string -> string)
    : (r: (int, Option<Form>))
    ensures r.0 in {Created, NotFound}
    ensures r.0 == NotFound <==> forall j :: 0 <= j < |forms| ==> forms[j].id != formId
    ensures r.0 == Created ==> r.1.Some?
    ensures r.0 == Created ==>
      exists j :: 0 <= j < |forms| && forms[j].id == formId && DuplicateOf(r.1.value, forms[j], ids.form)
  {
    match DuplicateForm(forms, formId, ids, random5, slugify)
    case None => (NotFound, None)
    case Some(copy) => (Created, Some(copy))
  }

  /**
   * The duplicate endpoint over the service as written: an unknown form is
   * still 404, but every existing form ends in 500, since the service's
   * save always fails; no copy is ever returned.
   */
  function DuplicateAsWritten(forms: seq<Form>, formId: string, ids: CopyIds, random5: string,
                              slugify: string -> string)
    : (r: (int, Option<Form>))
    ensures r.0 in {NotFound, ServerError} && r.1.None?
    ensures r.0 == NotFound <==> forall j :: 0 <= j < |forms| ==> forms[j].id != formId
    ensures r.0 == ServerError <==> Duplicate(forms, formId, ids, random5, slugify).0 == Created
  {
    match DuplicateFormAsWritten(forms, formId, ids, random5, slugify)
    case Failure(code) => (code, None)
    case Success(copy) =>
      DuplicateFailsAsWritten(forms, formId, ids, random5, slugify);
      assert false;
      (Created, Some(copy))
  }
}
