/** `TextFieldViewValidationStrategy`: an optional regex and two optional
    error messages, both null unless a strategy overrides them. */
module FieldViewStrategy {
  import opened KotlinStd
  import opened JavaRegex

  datatype TextFieldViewValidationStrategy = TextFieldViewValidationStrategy(
    regex: Option<Pattern>,
    notEmptyFieldError: Option<string> := None,
    specializationFieldError: Option<string> := None)
  {
    /** `validate(text)`: true when there is no regex, else a whole-input match. */
    predicate Validate(text: string) {
      match regex
      case None => true
      case Some(p) => Matches(p, text)
    }
  }

  /** `TextFieldViewValidationStrategy.None`: no regex. */
  const NoneStrategy: TextFieldViewValidationStrategy := TextFieldViewValidationStrategy(None)
}
