/** The WTForms validators, widgets and field classes the admin forms use. */
module FormTypes {
  import opened Wrappers

  datatype Validator =
    | InputRequired
    | DataRequired
      /** `Required` is a subclass of `DataRequired`. */
    | Required
    | Optional
    | Unique(column: string)
    | Length(maxLength: int)
    | AnyOf(values: seq<string>)
    | NumberRange(min: Option<int>, max: Option<int>)
    | IPAddress
    | MacAddress
    | Uuid
    | OtherValidator(name: string)

  datatype Widget = DatePickerWidget | DateTimePickerWidget | TimePickerWidget | Select2Widget | Select2MultipleWidget

  datatype FieldKind =
    | TextField | TextAreaField | BooleanField | DateField | DateTimeField | TimeField
    | IntegerField | DecimalField | HiddenField | Select2Field | Select2TagsField
    | QuerySelectField | QuerySelectMultipleField
      /** A field class supplied through `form_overrides`. */
    | OverrideField(name: string)
}
