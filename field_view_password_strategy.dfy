/** The demo app's `PasswordValidationStrategy` for `TextFieldView`: the
    password pattern and a `specializationFieldError` from the app's string
    resources; `notEmptyFieldError` keeps its null default. */
module FieldViewPasswordStrategy {
  import opened KotlinStd
  import opened FieldViewStrategy
  import opened FieldView
  import PasswordRegex

  /** The strategy; `passwordFieldError` is the resource text
      `context.getString(R.string.password_field_error)`. */
  function PasswordValidationStrategy(passwordFieldError: string): TextFieldViewValidationStrategy {
    TextFieldViewValidationStrategy(Some(PasswordRegex.PasswordPattern), specializationFieldError := Some(passwordFieldError))
  }

  /** Installed in a `TextFieldView`: blank text falls back to the view's
      `fieldValidationError`, non-blank text the pattern refuses shows the
      password message, an acceptable password clears the error, and the
      reported validity is exactly acceptance. */
  lemma PasswordErrors(passwordFieldError: string, fieldValidationError: Option<string>, text: Option<string>)
    ensures PasswordValidationStrategy(passwordFieldError).notEmptyFieldError.None?
    ensures IsNullOrBlank(text) ==>
              ErrorFor(PasswordValidationStrategy(passwordFieldError), fieldValidationError, text) == fieldValidationError
    ensures text.Some? && !IsBlank(text.value) && !PasswordRegex.Acceptable(text.value) ==>
              ErrorFor(PasswordValidationStrategy(passwordFieldError), fieldValidationError, text) == Some(passwordFieldError)
    ensures text.Some? && PasswordRegex.Acceptable(text.value) ==>
              ErrorFor(PasswordValidationStrategy(passwordFieldError), fieldValidationError, text).None?
    ensures Validity(PasswordValidationStrategy(passwordFieldError), text) <==>
              (text.None? || PasswordRegex.Acceptable(text.value))
  {
    if text.Some? {
      PasswordRegex.RegexMatchesCharacterization(text.value);
      if PasswordRegex.RegexMatches(text.value) {
        PasswordRegex.AcceptedIsNotBlank(text.value);
      }
    }
  }
}
