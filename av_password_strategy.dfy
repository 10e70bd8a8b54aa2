/** The demo app's `PasswordValidationStrategy` for `AVTextInputLayout`:
    the password pattern, an invalid-input message from the app's string
    resources, and no empty-input message. */
module AVPasswordStrategy {
  import opened KotlinStd
  import opened AVTextInput
  import PasswordRegex

  /** The strategy; `passwordFieldError` is the resource text
      `context.getString(R.string.password_field_error)`. */
  function PasswordValidationStrategy(passwordFieldError: string): ValidationStrategy {
    ValidationStrategy(regex := Some(PasswordRegex.PasswordPattern), invalidInputError := Some(passwordFieldError))
  }

  /** Installed in an `AVTextInputLayout`: blank text shows no error at all
      (the strategy has no empty-input message and the layout does not fall
      back), non-blank text the pattern refuses shows the password message,
      an acceptable password clears the error, and the reported validity is
      exactly acceptance, so blank text is reported invalid. */
  lemma PasswordErrors(passwordFieldError: string, invalidError: Option<string>, text: Option<string>)
    ensures IsNullOrBlank(text) ==> ErrorFor(PasswordValidationStrategy(passwordFieldError), invalidError, text).None?
    ensures text.Some? && !IsBlank(text.value) && !PasswordRegex.Acceptable(text.value) ==>
              ErrorFor(PasswordValidationStrategy(passwordFieldError), invalidError, text) == Some(passwordFieldError)
    ensures text.Some? && PasswordRegex.Acceptable(text.value) ==>
              ErrorFor(PasswordValidationStrategy(passwordFieldError), invalidError, text).None?
    ensures Validity(PasswordValidationStrategy(passwordFieldError), text) <==>
              (text.None? || PasswordRegex.Acceptable(text.value))
  {
    if text.Some? {
      PasswordRegex.RegexMatchesCharacterization(text.value);
      if PasswordRegex.RegexMatches(text.value) {
        PasswordRegex.AcceptedIsNotBlank(text.value);
      }
    }
  }

  /** The empty text is reported invalid while no error is shown. */
  lemma EmptyReportedInvalidWithoutError(passwordFieldError: string, invalidError: Option<string>)
    ensures !Validity(PasswordValidationStrategy(passwordFieldError), Some(""))
    ensures ErrorFor(PasswordValidationStrategy(passwordFieldError), invalidError, Some("")).None?
  {
    PasswordErrors(passwordFieldError, invalidError, Some(""));
  }
}
