/**
 * The schema records a form is built from, with the properties the form
 * component reads: a form is an ordered list of sections, each with an
 * ordered list of fields.
 */
module FormSchema {
  import opened Optional

  /** One entry of a dropdown, radio group or checkbox group. */
  datatype FieldOption = FieldOption(value: string, labelText: string, dataTestId: string)

  /**
   * One field. `fieldType` is the schema's `type` property, kept as text so that
   * a type outside the known set can be represented; the length bounds and the
   * options are optional properties.
   */
  datatype Field = Field(
    fieldId: string,
    fieldType: string,
    labelText: string,
    required: bool,
    placeholder: Option<string>,
    minLength: Option<int>,
    maxLength: Option<int>,
    options: Option<seq<FieldOption>>,
    dataTestId: string)

  /** One page of the wizard. */
  datatype Section = Section(title: string, description: string, fields: seq<Field>)
}
