/**
 * lib/flask_admin/helpers.py: what a form field's validators and errors
 * say, and whether the current request submits a form. The request is a
 * parameter rather than Flask's global.
 */
module Helpers {
  import opened Wrappers
  import opened FormTypes

  /** `isinstance(v, (DataRequired, InputRequired))`; `Required` subclasses `DataRequired`. */
  predicate IsRequiredValidator(v: Validator)
  {
    v.DataRequired? || v.Required? || v.InputRequired?
  }

  /** `is_required_form_field`: the first required validator ends the scan. */
  function IsRequiredFormField(validators: seq<Validator>): (r: bool)
    ensures r <==> exists i :: 0 <= i < |validators| && IsRequiredValidator(validators[i])
  {
    if validators == [] then false
    else if IsRequiredValidator(validators[0]) then true
    else
      var rest := IsRequiredFormField(validators[1..]);
      assert forall i :: 1 <= i < |validators| ==> validators[i] == validators[1..][i - 1];
      rest
  }

  /** An element of a field's `errors`: a message, or the error list of a nested field. */
  datatype ErrorEntry = Message(text: string) | NestedErrors(entries: seq<string>)

  /** `is_field_error`: whether the field has an error of its own rather than only nested ones. */
  function IsFieldError(errors: seq<ErrorEntry>): (r: bool)
    ensures r <==> exists i :: 0 <= i < |errors| && errors[i].Message?
  {
    if errors == [] then false
    else if errors[0].Message? then true
    else
      var rest := IsFieldError(errors[1..]);
      assert forall i :: 1 <= i < |errors| ==> errors[i] == errors[1..][i - 1];
      rest
  }

  /** A submitted value: text from the form body, or an uploaded file. */
  datatype FormValue = Text(text: string) | Upload(filename: string)

  /** A werkzeug MultiDict: every key keeps the list of its values. */
  type MultiDict = map<string, seq<FormValue>>

  datatype Request = Request(httpMethod: string, form: MultiDict, files: MultiDict)

  /** `is_form_submitted`: there is a request and its method is PUT or POST. */
  predicate IsFormSubmitted(request: Option<Request>)
  {
    request.Some? && request.value.httpMethod in ["PUT", "POST"]
  }

  /** `MultiDict.update`: the other dict's values are added after the existing ones. */
  function Update(a: MultiDict, b: MultiDict): MultiDict
  {
    map k | k in a.Keys + b.Keys :: (if k in a then a[k] else []) + (if k in b then b[k] else [])
  }

  /** `get_form_data` */
  function GetFormData(request: Option<Request>): Option<MultiDict>
  {
    if IsFormSubmitted(request) then
      var r := request.value;
      Some(if |r.files| > 0 then Update(r.form, r.files) else r.form)
    else None
  }

  /**
   * Form data exists exactly for a PUT or POST request. It is the form
   * itself when there are no files; otherwise every key of either dict is
   * present, with the form's values first and the files' values after them.
   */
  lemma FormDataMerged(request: Option<Request>)
    ensures GetFormData(request).Some? <==> IsFormSubmitted(request)
    ensures IsFormSubmitted(request) && |request.value.files| == 0 ==> GetFormData(request) == Some(request.value.form)
    ensures IsFormSubmitted(request) ==>
              var r := request.value;
              var d := GetFormData(request).value;
              d.Keys == r.form.Keys + r.files.Keys
              && (forall k :: k in r.form ==> |r.form[k]| <= |d[k]| && d[k][..|r.form[k]|] == r.form[k])
              && (forall k :: k in r.files ==> |r.files[k]| <= |d[k]| && d[k][|d[k]| - |r.files[k]|..] == r.files[k])
              && (forall k :: k in d ==> |d[k]| == (if k in r.form then |r.form[k]| else 0) + (if k in r.files then |r.files[k]| else 0))
  {
    if IsFormSubmitted(request) {
      var r := request.value;
      var d := GetFormData(request).value;
      forall k | k in r.form
        ensures |r.form[k]| <= |d[k]| && d[k][..|r.form[k]|] == r.form[k]
      {
        if |r.files| > 0 {
          assert d[k] == r.form[k] + (if k in r.files then r.files[k] else []);
        }
      }
      forall k | k in r.files
        ensures |r.files[k]| <= |d[k]| && d[k][|d[k]| - |r.files[k]|..] == r.files[k]
      {
        assert d[k] == (if k in r.form then r.form[k] else []) + r.files[k];
      }
    }
  }

  /** A form whose `validate()` answers `valid` and counts its calls. */
  class Form {
    const valid: bool
    var validateCalls: nat

    constructor(valid: bool)
      ensures this.valid == valid && validateCalls == 0
    {
      this.valid := valid;
      validateCalls := 0;
    }

    method Validate() returns (ok: bool)
      modifies this
      ensures ok == valid && validateCalls == old(validateCalls) + 1
    {
      validateCalls := validateCalls + 1;
      ok := valid;
    }
  }

  /** `validate_form_on_submit`: the form is validated only for a PUT or POST request. */
  method ValidateFormOnSubmit(request: Option<Request>, form: Form) returns (r: bool)
    modifies form
    ensures r == (IsFormSubmitted(request) && form.valid)
    ensures form.validateCalls == old(form.validateCalls) + (if IsFormSubmitted(request) then 1 else 0)
  {
    if !IsFormSubmitted(request) {
      return false;
    }
    r := form.Validate();
  }
}
