/**
 * What the seller's and the buyer's forms share.  The change handler
 * spreads the form object with the new value under the field's name and
 * blanks a message showing for that field; `validateForm` builds an errors
 * object by recording a message for each field that fails its check.  The
 * forms' keys are the field names of each form.
 */
module FormInput {
  import opened JsValues

  /** `formErrors[field]` is truthy: the field has a non-empty message. */
  predicate ErrorShown<K>(errors: map<K, string>, field: K)
  {
    field in errors && errors[field] != ""
  }

  /** The errors after `handleInputChange(field, …)`: that field's message blanked if it was showing. */
  function ClearError<K>(errors: map<K, string>, field: K): (r: map<K, string>)
    ensures r.Keys == errors.Keys
    ensures field in r ==> r[field] == ""
    ensures forall k | k in errors && k != field :: r[k] == errors[k]
  {
    if ErrorShown(errors, field) then errors[field := ""] else errors
  }

  /** `if (!formData[field]) errors[field] = message`: the message when the field is falsy. */
  function Required<K>(form: map<K, Value>, field: K, message: string): Option<string>
  {
    if field in form && Truthy(form[field]) then None else Some(message)
  }

  /** Records `check`'s message under `field` when there is one. */
  function WithError<K>(errors: map<K, string>, field: K, check: Option<string>): map<K, string>
  {
    match check
    case Some(message) => errors[field := message]
    case None => errors
  }

  /** A recorded message is the check's; every other key keeps what it had. */
  lemma WithErrorAt<K>(errors: map<K, string>, field: K, check: Option<string>, at: K)
    ensures at == field ==> (at in WithError(errors, field, check) <==> at in errors || check.Some?)
    ensures at == field && check.Some? ==> WithError(errors, field, check)[at] == check.value
    ensures at == field && check.None? && at in errors ==> WithError(errors, field, check)[at] == errors[at]
    ensures at != field ==> (at in WithError(errors, field, check) <==> at in errors)
    ensures at != field && at in errors ==> WithError(errors, field, check)[at] == errors[at]
  {
  }

  /** One required-field line of a `validateForm`. */
  method RequireField<K>(errors: map<K, string>, form: map<K, Value>, field: K, message: string)
    returns (r: map<K, string>)
    requires field in form
    ensures r == WithError(errors, field, Required(form, field, message))
  {
    r := errors;
    if !Truthy(form[field]) {
      r := r[field := message];
    }
  }

  /** After blanking, no message shows for the field, and one showing for any other field still shows. */
  lemma ClearErrorHides<K>(errors: map<K, string>, field: K, other: K)
    ensures !ErrorShown(ClearError(errors, field), field)
    ensures other != field ==> (ErrorShown(ClearError(errors, field), other) <==> ErrorShown(errors, other))
  {
  }
}
