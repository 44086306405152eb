/**
 * The per-type rule table of the form's field renderer: which control a field
 * type gets, which validation rules are registered for it (with their exact
 * messages), and which choices a selection control lists.
 */
module FieldRules {
  import opened Optional
  import opened FormSchema
  import Decimal

  const RequiredMessage: string := "This field is required"
  const MinLengthPrefix: string := "Minimum length is "
  const MaxLengthPrefix: string := "Maximum length is "
  const SelectPlaceholder: string := "Select an option"

  /** Types that get the required, minLength and maxLength rules. */
  predicate IsTextLike(t: string) {
    t == "text" || t == "tel" || t == "email" || t == "textarea"
  }

  /** Types that get the required rule only. */
  predicate IsRequiredOnly(t: string) {
    t == "date" || t == "dropdown" || t == "radio" || t == "checkbox"
  }

  /** Types rendered as one input per option, each registered with the field's rules. */
  predicate IsOptionGroup(t: string) {
    t == "radio" || t == "checkbox"
  }

  predicate IsKnownType(t: string) {
    IsTextLike(t) || IsRequiredOnly(t)
  }

  /**
   * Whether `field.minLength && { … }` yields a rule: a missing bound and a
   * bound of 0 are both falsy, every other number is truthy.
   */
  predicate IsSetBound(bound: Option<int>) {
    bound.Some? && bound.value != 0
  }

  datatype LengthRule = LengthRule(value: int, message: string)

  /** The options object handed to the form library's `register`. */
  datatype Rules = Rules(required: Option<string>, minLength: Option<LengthRule>, maxLength: Option<LengthRule>)

  datatype ControlKind = TextInput(inputType: string) | DateInput | TextArea | Select | RadioGroup | CheckboxGroup

  /** One selectable entry: a select option, a radio button or a checkbox. */
  datatype Choice = Choice(value: string, labelText: string)

  datatype Control = Control(kind: ControlKind, rules: Rules, placeholder: Option<string>, choices: seq<Choice>)

  function LengthBound(bound: Option<int>, prefix: string): Option<LengthRule> {
    if IsSetBound(bound) then Some(LengthRule(bound.value, prefix + Decimal.IntToString(bound.value))) else None
  }

  function RequiredOnlyRules(f: Field): Rules {
    Rules(if f.required then Some(RequiredMessage) else None, None, None)
  }

  function TextRules(f: Field): Rules {
    RequiredOnlyRules(f).(minLength := LengthBound(f.minLength, MinLengthPrefix),
                          maxLength := LengthBound(f.maxLength, MaxLengthPrefix))
  }

  /** The options a selection control lists: none when the property is missing. */
  function OptionsOf(f: Field): seq<FieldOption> {
    if f.options.Some? then f.options.value else []
  }

  /**
   * A radio or checkbox group registers its rules from inside the per-option
   * inputs, so a group without options registers no rule at all.
   */
  function GroupRules(f: Field): Rules {
    if OptionsOf(f) == [] then Rules(None, None, None) else RequiredOnlyRules(f)
  }

  /** One entry per option, in option order. */
  function ChoicesOf(opts: seq<FieldOption>): (cs: seq<Choice>)
    ensures |cs| == |opts|
    ensures forall k :: 0 <= k < |opts| ==> cs[k].value == opts[k].value && cs[k].labelText == opts[k].labelText
  {
    if opts == [] then [] else [Choice(opts[0].value, opts[0].labelText)] + ChoicesOf(opts[1..])
  }

  /**
   * The control and the rules registered for one field; an unknown type
   * renders nothing.
   */
  function RenderField(f: Field): (c: Option<Control>)
    ensures c.None? <==> !IsKnownType(f.fieldType)
    ensures c.Some? ==>
      (c.value.rules.required.Some? <==> f.required && !(IsOptionGroup(f.fieldType) && OptionsOf(f) == []))
    ensures c.Some? && c.value.rules.required.Some? ==> c.value.rules.required.value == RequiredMessage
    ensures c.Some? ==> (c.value.rules.minLength.Some? <==> IsTextLike(f.fieldType) && IsSetBound(f.minLength))
    ensures c.Some? ==> (c.value.rules.maxLength.Some? <==> IsTextLike(f.fieldType) && IsSetBound(f.maxLength))
    ensures f.fieldType == "text" || f.fieldType == "tel" || f.fieldType == "email" ==>
      c.Some? && c.value.kind == TextInput(f.fieldType)
    ensures f.fieldType == "date" ==> c.Some? && c.value.kind == DateInput
    ensures f.fieldType == "textarea" ==> c.Some? && c.value.kind == TextArea
    ensures f.fieldType == "dropdown" ==> c.Some? && c.value.kind == Select
    ensures f.fieldType == "radio" ==> c.Some? && c.value.kind == RadioGroup
    ensures f.fieldType == "checkbox" ==> c.Some? && c.value.kind == CheckboxGroup
    ensures c.Some? && IsTextLike(f.fieldType) ==> c.value.choices == [] && c.value.placeholder == f.placeholder
    ensures c.Some? && !IsTextLike(f.fieldType) ==> c.value.placeholder == None
    ensures c.Some? && f.fieldType == "date" ==> c.value.choices == []
    ensures c.Some? && f.fieldType == "dropdown" ==>
      c.value.choices == [Choice("", SelectPlaceholder)] + ChoicesOf(OptionsOf(f))
    ensures c.Some? && (f.fieldType == "radio" || f.fieldType == "checkbox") ==>
      c.value.choices == ChoicesOf(OptionsOf(f))
  {
    var t := f.fieldType;
    if t == "text" || t == "tel" || t == "email" then
      Some(Control(TextInput(t), TextRules(f), f.placeholder, []))
    else if t == "date" then
      Some(Control(DateInput, RequiredOnlyRules(f), None, []))
    else if t == "textarea" then
      Some(Control(TextArea, TextRules(f), f.placeholder, []))
    else if t == "dropdown" then
      Some(Control(Select, RequiredOnlyRules(f), None, [Choice("", SelectPlaceholder)] + ChoicesOf(OptionsOf(f))))
    else if t == "radio" then
      Some(Control(RadioGroup, GroupRules(f), None, ChoicesOf(OptionsOf(f))))
    else if t == "checkbox" then
      Some(Control(CheckboxGroup, GroupRules(f), None, ChoicesOf(OptionsOf(f))))
    else
      None
  }

  /**
   * The bound a length message names, read back from its text: the number
   * after the prefix, or None when the message does not have that shape.
   */
  function BoundInMessage(prefix: string, message: string): Option<int> {
    if prefix <= message && Decimal.IsIntLiteral(message[|prefix|..]) then
      Some(Decimal.ParseInt(message[|prefix|..]))
    else
      None
  }

  /**
   * A length rule carries the field's own bound; its message is the fixed prefix
   * followed by that bound as JavaScript prints it, and reading the number back
   * out of the message gives exactly the bound.
   */
  lemma LengthMessagesNameBounds(f: Field)
    requires RenderField(f).Some?
    ensures var r := RenderField(f).value.rules;
      (r.minLength.Some? ==>
        r.minLength.value.value == f.minLength.value &&
        r.minLength.value.message == MinLengthPrefix + Decimal.IntToString(f.minLength.value) &&
        BoundInMessage(MinLengthPrefix, r.minLength.value.message) == Some(f.minLength.value)) &&
      (r.maxLength.Some? ==>
        r.maxLength.value.value == f.maxLength.value &&
        r.maxLength.value.message == MaxLengthPrefix + Decimal.IntToString(f.maxLength.value) &&
        BoundInMessage(MaxLengthPrefix, r.maxLength.value.message) == Some(f.maxLength.value))
  {
    var r := RenderField(f).value.rules;
    if r.minLength.Some? {
      var m := r.minLength.value.message;
      assert m == MinLengthPrefix + Decimal.IntToString(f.minLength.value);
      assert m[|MinLengthPrefix|..] == Decimal.IntToString(f.minLength.value);
      Decimal.ParseIntToString(f.minLength.value);
    }
    if r.maxLength.Some? {
      var m := r.maxLength.value.message;
      assert m == MaxLengthPrefix + Decimal.IntToString(f.maxLength.value);
      assert m[|MaxLengthPrefix|..] == Decimal.IntToString(f.maxLength.value);
      Decimal.ParseIntToString(f.maxLength.value);
    }
  }

  /** What one field row shows besides its control. */
  datatype FieldRow = FieldRow(labelText: string, requiredMarker: bool, control: Option<Control>, errorMessage: Option<string>)

  /**
   * One row per field, in field order: the label, the required marker, the
   * control, and the error message recorded for the field's id, if any.
   */
  function RenderRows(fields: seq<Field>, errors: map<string, string>): (rows: seq<FieldRow>)
    ensures |rows| == |fields|
    ensures forall k :: 0 <= k < |fields| ==>
      rows[k].labelText == fields[k].labelText &&
      rows[k].requiredMarker == fields[k].required &&
      rows[k].control == RenderField(fields[k]) &&
      (rows[k].errorMessage.Some? <==> fields[k].fieldId in errors) &&
      (rows[k].errorMessage.Some? ==> rows[k].errorMessage.value == errors[fields[k].fieldId])
  {
    if fields == [] then []
    else
      var f := fields[0];
      var message := if f.fieldId in errors then Some(errors[f.fieldId]) else None;
      [FieldRow(f.labelText, f.required, RenderField(f), message)] + RenderRows(fields[1..], errors)
  }
}
