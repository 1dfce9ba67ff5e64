/**
 * The validation rules a submission's data is checked against: one rule
 * list per persisted field (presence, then the type's rule, then the
 * field's own rules), and the meaning of the rules this model interprets:
 * presence, the phone character class and the referral-code check.
 */
module Validation {
  import opened Wrappers
  import opened Text
  import opened Money
  import opened Schema
  import opened FormView
  import opened Affiliates

  datatype Rule =
    | Required | Nullable
    | EmailRule | PhoneRule | NumericRule | DateRule | FileRule
    | StringRule | AffiliateCodeRule
    | Custom(text: string)

  /**
   * The rules of one field: `attribute` is the key under `data` they read
   * (the rule list is keyed "data." + attribute), `requiredMessage` the
   * message for a failed presence rule.
   */
  datatype FieldRules = FieldRules(attribute: string, rules: seq<Rule>, requiredMessage: string)

  function RuleKey(fr: FieldRules): string {
    "data." + fr.attribute
  }

  /** The rules a field's type adds; other types add none. */
  function TypeRules(t: FieldType): (r: seq<Rule>)
    ensures |r| <= 2
    ensures Required !in r && Nullable !in r
    ensures AffiliateCodeRule in r <==> t == AffiliateField
    ensures PhoneRule in r <==> t == PhoneField
  {
    match t
    case EmailField => [EmailRule]
    case PhoneField => [PhoneRule]
    case NumberField => [NumericRule]
    case DateField => [DateRule]
    case FileField => [FileRule]
    case AffiliateField => [StringRule, AffiliateCodeRule]
    case _ => []
  }

  /** The field's own rules, appended in their stored order (none when null). */
  function CustomRules(f: Field): (r: seq<Rule>)
    ensures f.validationRules.None? ==> r == []
    ensures f.validationRules.Some? ==> r == CustomsOf(f.validationRules.value)
  {
    match f.validationRules
    case None => []
    case Some(texts) => CustomsOf(texts)
  }

  function CustomsOf(texts: seq<string>): (r: seq<Rule>)
    ensures |r| == |texts|
    ensures forall i :: 0 <= i < |r| ==> r[i] == Custom(texts[i])
  {
    if |texts| == 0 then [] else [Custom(texts[0])] + CustomsOf(texts[1..])
  }

  /** One field's rule list: presence first, then the type's rules, then its own. */
  function FieldRuleList(f: Field, required: bool): (r: seq<Rule>)
    ensures |r| == 1 + |TypeRules(f.fieldType)| + |CustomRules(f)|
    ensures r[0] == if required then Required else Nullable
    ensures r[1..1 + |TypeRules(f.fieldType)|] == TypeRules(f.fieldType)
    ensures r[1 + |TypeRules(f.fieldType)|..] == CustomRules(f)
  {
    [if required then Required else Nullable] + TypeRules(f.fieldType) + CustomRules(f)
  }

  /** Presence is demanded exactly when the field is taken to be required. */
  lemma RequiredIffFlag(f: Field, required: bool)
    ensures Required in FieldRuleList(f, required) <==> required
    ensures AffiliateCodeRule in FieldRuleList(f, required) <==> f.fieldType == AffiliateField
    ensures PhoneRule in FieldRuleList(f, required) <==> f.fieldType == PhoneField
  {
    var r := FieldRuleList(f, required);
    assert r == [r[0]] + TypeRules(f.fieldType) + CustomRules(f);
  }

  function RequiredMessage(f: Field): string {
    "Field '" + f.labelText + "' is required"
  }

  /** The rule lists of the given fields, one per field in order. */
  function BuildRules(fields: seq<Field>, attributeOf: Field -> string, requiredOf: Field -> bool)
    : (r: seq<FieldRules>)
    ensures |r| == |fields|
    ensures forall i :: 0 <= i < |r| ==>
      r[i] == FieldRules(attributeOf(fields[i]), FieldRuleList(fields[i], requiredOf(fields[i])),
                         RequiredMessage(fields[i]))
  {
    if |fields| == 0 then []
    else
      var head := FieldRules(attributeOf(fields[0]), FieldRuleList(fields[0], requiredOf(fields[0])),
                             RequiredMessage(fields[0]));
      [head] + BuildRules(fields[1..], attributeOf, requiredOf)
  }

  function FieldId(f: Field): string {
    f.id
  }

  function FieldName(f: Field): string {
    f.name
  }

  /** The `required` attribute the rule builder reads; a field has none, so it is always null. */
  function RequiredAttribute(f: Field): bool {
    false
  }

  function IsRequired(f: Field): bool {
    f.isRequired
  }

  /** The rules as written: keyed by field id, presence read from the absent `required` attribute. */
  function RulesAsWritten(sections: seq<Section>): seq<FieldRules> {
    BuildRules(AllFields(sections), FieldId, RequiredAttribute)
  }

  /** The rules as intended: keyed by the field name the data uses, presence from `is_required`. */
  function Rules(sections: seq<Section>): seq<FieldRules> {
    BuildRules(AllFields(sections), FieldName, IsRequired)
  }

  /** A value the presence rule accepts: there and not blank once trimmed. */
  predicate Filled(data: map<string, string>, attribute: string) {
    attribute in data && Trim(data[attribute]) != ""
  }

  /** The characters of the phone pattern `^[0-9+\-\s()]+$`. */
  predicate PhoneChar(c: char) {
    IsDigit(c) || c == '+' || c == '-' || c == '(' || c == ')' ||
    c == ' ' || c == '\t' || c == '\n' || c == '\r' || c == '\U{0B}' || c == '\U{0C}'
  }

  predicate PhoneMatches(s: string) {
    |s| >= 1 && forall i :: 0 <= i < |s| ==> PhoneChar(s[i])
  }

  /** The referral-code rule: a false-y value is skipped, any other must name a qualifying reward. */
  predicate AffiliateCodeAccepted(rewards: seq<AffiliateReward>, formId: string, value: string) {
    !Truthy(value) || FindQualifying(rewards, value, formId).Some?
  }

  /** The rules of one field that this model interprets hold on `data`. */
  predicate FieldChecks(fr: FieldRules, data: map<string, string>, rewards: seq<AffiliateReward>, formId: string) {
    && (Required in fr.rules ==> Filled(data, fr.attribute))
    && (PhoneRule in fr.rules && fr.attribute in data && data[fr.attribute] != "" ==>
          PhoneMatches(data[fr.attribute]))
    && (AffiliateCodeRule in fr.rules && fr.attribute in data ==>
          AffiliateCodeAccepted(rewards, formId, data[fr.attribute]))
  }

  /**
   * The validator's verdict: every interpreted rule holds, and `others` is
   * the verdict of the rules left uninterpreted (email, numeric, date, file,
   * string and the field's own).
   */
  predicate Passes(rules: seq<FieldRules>, data: map<string, string>, rewards: seq<AffiliateReward>,
                   formId: string, others: bool) {
    others && forall i :: 0 <= i < |rules| ==> FieldChecks(rules[i], data, rewards, formId)
  }

  /** As written, no field ever demands presence: leaving any field out never fails validation. */
  lemma {:induction false} AsWrittenNeverRequires(sections: seq<Section>)
    ensures forall i :: 0 <= i < |RulesAsWritten(sections)| ==>
      Required !in RulesAsWritten(sections)[i].rules
  {
    var fields := AllFields(sections);
    forall i | 0 <= i < |RulesAsWritten(sections)|
      ensures Required !in RulesAsWritten(sections)[i].rules
    {
      RequiredIffFlag(fields[i], false);
    }
  }

  /** A form with one required text field, for the witnesses below. */
  function OneRequiredField(): Section {
    Section("s1", "f1", "Data", None, 0,
      [Field("fld-1", Some("s1"), "Nama", "nama", TextField, None, None, true, 0, None, None)])
  }

  /** As written, the required field may be left out; as intended, leaving it out fails. */
  lemma RequiredFieldLeftOut()
    ensures Passes(RulesAsWritten([OneRequiredField()]), map[], [], "f1", true)
    ensures !Passes(Rules([OneRequiredField()]), map[], [], "f1", true)
  {
    var sections := [OneRequiredField()];
    assert AllFields(sections) == OneRequiredField().fields;
    var fld := OneRequiredField().fields[0];
    RequiredIffFlag(fld, false);
    RequiredIffFlag(fld, true);
    assert Rules(sections)[0].rules == FieldRuleList(fld, true);
    assert !FieldChecks(Rules(sections)[0], map[], [], "f1");
  }

  /** Each intended rule list reads the field's name and demands presence iff the field is required. */
  lemma {:induction false} RulesShape(fields: seq<Field>)
    ensures |BuildRules(fields, FieldName, IsRequired)| == |fields|
    ensures forall j :: 0 <= j < |fields| ==>
      && BuildRules(fields, FieldName, IsRequired)[j].attribute == fields[j].name
      && ((Required in BuildRules(fields, FieldName, IsRequired)[j].rules) <==> fields[j].isRequired)
  {
    var rules := BuildRules(fields, FieldName, IsRequired);
    forall j | 0 <= j < |fields|
      ensures rules[j].attribute == fields[j].name
      ensures (Required in rules[j].rules) <==> fields[j].isRequired
    {
      RequiredIffFlag(fields[j], fields[j].isRequired);
    }
  }

  /** Every presence rule of `rules` holds on `data`. */
  predicate PresenceRulesHold(rules: seq<FieldRules>, data: map<string, string>) {
    forall i :: 0 <= i < |rules| && Required in rules[i].rules ==> Filled(data, rules[i].attribute)
  }

  /** Every required field among `fields` has a non-blank value under its name. */
  predicate RequiredFieldsPresent(fields: seq<Field>, data: map<string, string>) {
    forall j :: 0 <= j < |fields| && fields[j].isRequired ==> Filled(data, fields[j].name)
  }

  /**
   * As intended, the presence rules hold exactly when every required field
   * has a non-blank value under its name.
   */
  lemma RequiredFieldsFilled(fields: seq<Field>, data: map<string, string>)
    ensures PresenceRulesHold(BuildRules(fields, FieldName, IsRequired), data) <==>
      RequiredFieldsPresent(fields, data)
  {
    var rules := BuildRules(fields, FieldName, IsRequired);
    RulesShape(fields);
    if PresenceRulesHold(rules, data) {
      forall j | 0 <= j < |fields| && fields[j].isRequired
        ensures Filled(data, fields[j].name)
      {
        assert Required in rules[j].rules;
      }
    }
    if RequiredFieldsPresent(fields, data) {
      forall i | 0 <= i < |rules| && Required in rules[i].rules
        ensures Filled(data, rules[i].attribute)
      {
        assert fields[i].isRequired;
      }
    }
  }

  /**
   * The referral-code rule and attribution use the same lookup: on a form
   * with referral enabled, a truthy code under `affiliate_code` passes the
   * rule exactly when the submission is attributed to a reward.
   */
  lemma CodeRuleAgreesWithAttribution(form: Form, data: map<string, string>, total: Cents,
                                      rewards: seq<AffiliateReward>)
    requires form.enableAffiliate
    requires AffiliateFieldName in data && Truthy(data[AffiliateFieldName])
    ensures AffiliateCodeAccepted(rewards, form.id, data[AffiliateFieldName]) <==>
      ProcessAffiliate(form, data, total, rewards).0.rewardId.Some?
  {
  }
}
