# AVTextInputLayout / TextFieldView in Dafny

This project models the two variants of the "action-validation" text field
in the Android library `nagnoletti/Android-AVTextInputLayout`. Both are
Material `TextInputLayout`s that add two things.

- A tap **mode**. In `Edit` the edit text is an ordinary editable field. In
  `Click` it takes no focus, shows no cursor, has no long click, and a tap
  on it or on the layout reaches the listener's `onAction(text)`.
- A **validation strategy**: an optional regex matched against the whole
  input, plus optional error messages. On every text change the installed
  handler picks the error to display and reports
  `onValidation(isValid, text)` to the listener.

`AVTextInputLayout` (module `AVTextInput`) reads its attributes in its
constructor. It applies mode, input type, masking, the end icon and the
validation handler once, in `onFinishInflate`. `TextFieldView` (module
`FieldView`) applies its mode, input type and strategy through property
setters, the moment they are assigned.

Each widget is a `class` whose fields are the widget's own state. The
layout's edit text is reduced to the flags the widget sets on it: input
type, focus, cursor, long click, click listeners, password masking, the
end-icon mode and the displayed error. The listener is a `bool` saying
whether one is set. Every callback it receives is appended to the field
`events`.

The other modules are:
- `KotlinStd`: the Kotlin pieces the widgets use: nullable values and
  `?:`, `singleOrNull`, `isNullOrBlank`.
- `JavaRegex`: a compiled `java.util.regex` pattern used through
  `matches()`, and the default meaning of `.` and `$`.
- `PasswordRegex`: the demo apps' password regex, transcribed construct by
  construct and proved equal to a plain description.
- `AVPasswordStrategy` and `FieldViewPasswordStrategy`: the two demo
  `PasswordValidationStrategy` classes.
- `WidgetScenarios`: a comparison of the two variants, and end-to-end runs
  of each.

Where the code and its own documentation disagree, the model follows the
code:
- The `EventListener` comment (AVTextInputLayout.kt:35) promises
  `onValidation` "on every input change". The handler exists only while a
  strategy is installed, so with no strategy the listener hears nothing
  (`AVTextInput.AVTextInputLayout.AfterTextChanged`).
- The two variants are not interchangeable. On null or blank text,
  `TextFieldView` falls back to its `fieldValidationError` and
  `AVTextInputLayout` does not (`WidgetScenarios.VariantsDifferOnlyOnBlankFallback`).
  An `AVTextInputLayout` strategy assigned after `onFinishInflate` is never
  used (`WidgetScenarios.AVLateStrategyIgnored`).
- Both password strategies are documented as requiring a lower-case letter
  and a digit. The regex requires neither (`PasswordRegex.NoLowercaseOrDigitRequired`).
  The model keeps the regex as written.
- The `AVTextInputLayout` demo strategy imports `AVTextInputLayout` from the
  `textfieldview` package, where it does not exist. The model takes the
  class it evidently means, from the `avtextinputlayout` package.

## Model

| member | source | states |
|---|---|---|
| KotlinStd.Filter | AVTextInputLayout/src/main/java/nagnoletti/android/avtextinputlayout/AVTextInputLayout.kt:135 | The filtered sequence is no longer than the input and holds exactly the input's elements that satisfy the predicate. |
| KotlinStd.FilterNoHit | AVTextInputLayout/src/main/java/nagnoletti/android/avtextinputlayout/AVTextInputLayout.kt:135 | When no element satisfies the predicate, the filter keeps nothing. |
| KotlinStd.FilterSingleHit | AVTextInputLayout/src/main/java/nagnoletti/android/avtextinputlayout/AVTextInputLayout.kt:135 | When exactly one position satisfies the predicate, the filter keeps that element alone. |
| KotlinStd.SingleOrNullSpec | TextFieldView/src/main/java/nagnoletti/android/textfieldview/TextFieldView.kt:86 | A non-null `singleOrNull` result satisfies the predicate, is in the input and is the only such element. A unique matching position is always found. |
| KotlinStd.FilterHasHit | AVTextInputLayout/src/main/java/nagnoletti/android/avtextinputlayout/AVTextInputLayout.kt:135 | When some position satisfies the predicate, the filter keeps at least one element. |
| KotlinStd.FilterTwoHits | AVTextInputLayout/src/main/java/nagnoletti/android/avtextinputlayout/AVTextInputLayout.kt:135 | When two positions satisfy the predicate, the filter keeps at least two elements, even if they hold equal values. |
| KotlinStd.SingleOrNullManyHits | TextFieldView/src/main/java/nagnoletti/android/textfieldview/TextFieldView.kt:86 | When two positions satisfy the predicate, `singleOrNull` returns null, even if they hold the same value. |
| PasswordRegex.AllDotsPrefix | app/src/main/java/com/example/avtextinputlayout/PasswordValidationStrategy.kt:14-15 | Every prefix of a string that `.*` consumes is itself consumed by `.*`. |
| PasswordRegex.RegexMatchesCharacterization | app/src/main/java/com/example/avtextinputlayout/PasswordValidationStrategy.kt:14-15 | The password regex, read as Java reads it under `matches()`, accepts a string iff it is at least 8 characters long, has no line terminator, and contains an upper-case letter, a letter or digit, and a character outside `[A-Za-z0-9]`. |
| PasswordRegex.AcceptedPasswordShape | app/src/main/java/com/example/textfieldviewapp/PasswordValidationStrategy.kt:11-12 | Every accepted password has at least 8 characters, an upper-case letter, a non-alphanumeric character and no line terminator. |
| PasswordRegex.NoLowercaseOrDigitRequired | app/src/main/java/com/example/avtextinputlayout/PasswordValidationStrategy.kt:7-10 | `ABCDEFG!` is accepted, though it has no lower-case letter and no digit, which the comment says are required. |
| PasswordRegex.TrailingNewlineRejected | app/src/main/java/com/example/textfieldviewapp/PasswordValidationStrategy.kt:11-12 | The length lookahead's `$` matches before a final newline, yet the whole pattern still rejects `ABCDEFG!\n`. |
| PasswordRegex.AcceptedIsNotBlank | app/src/main/java/com/example/avtextinputlayout/PasswordValidationStrategy.kt:14-15 | No accepted password is blank. |
| AVTextInput.ModeFromRawSpec | AVTextInputLayout/src/main/java/nagnoletti/android/avtextinputlayout/AVTextInputLayout.kt:48-55 | Looking up a raw code yields mode `m` iff `m`'s raw code is that code. |
| AVTextInput.DecodeModeSpec | AVTextInputLayout/src/main/java/nagnoletti/android/avtextinputlayout/AVTextInputLayout.kt:130-136 | The `mode` attribute selects the mode with that raw code. An absent attribute or an unknown code gives `Edit`. |
| AVTextInput.DecodeInputSpec | AVTextInputLayout/src/main/java/nagnoletti/android/avtextinputlayout/AVTextInputLayout.kt:138-147 | Codes 1, 2 and 3 select email, numbers and password, and each kind's code decodes back to it. An absent attribute or any other code gives text. |
| AVTextInput.ErrorPrecedence | AVTextInputLayout/src/main/java/nagnoletti/android/avtextinputlayout/AVTextInputLayout.kt:203-209 | Null or blank text shows the empty-input error. Otherwise invalid text shows the strategy's invalid error, else the layout's `invalidError`. Valid text clears the error. No other message can appear. |
| AVTextInput.BlankIgnoresFallback | AVTextInputLayout/src/main/java/nagnoletti/android/avtextinputlayout/AVTextInputLayout.kt:205 | For blank text the displayed error does not depend on the layout's `invalidError`. |
| AVTextInput.ClearedErrorMeansValid | AVTextInputLayout/src/main/java/nagnoletti/android/avtextinputlayout/AVTextInputLayout.kt:204-209 | When some invalid-input message exists, a cleared error on non-blank text implies the text is valid. |
| AVTextInput.AVTextInputLayout.constructor | AVTextInputLayout/src/main/java/nagnoletti/android/avtextinputlayout/AVTextInputLayout.kt:77-111 | Fields take their defaults, and then the attributes are parsed. The edit text is still untouched, no handler is installed and no watcher is attached. |
| AVTextInput.AVTextInputLayout.ParseAttributes | AVTextInputLayout/src/main/java/nagnoletti/android/avtextinputlayout/AVTextInputLayout.kt:125-155 | With attributes, mode, input kind and `invalidError` are decoded, and an unknown input code still gives text. Without attributes the three fields are unchanged. |
| AVTextInput.AVTextInputLayout.InitInputType | AVTextInputLayout/src/main/java/nagnoletti/android/avtextinputlayout/AVTextInputLayout.kt:157-160 | The edit text gets the chosen input kind, or text when none was chosen. |
| AVTextInput.AVTextInputLayout.SetInputIconMode | AVTextInputLayout/src/main/java/nagnoletti/android/avtextinputlayout/AVTextInputLayout.kt:162-171 | Password input gets the visibility toggle. Otherwise a declared end drawable becomes a custom icon wired to `onAction`, with the error icon removed. Otherwise nothing changes. |
| AVTextInput.AVTextInputLayout.SetInputTransformationMethod | AVTextInputLayout/src/main/java/nagnoletti/android/avtextinputlayout/AVTextInputLayout.kt:173-178 | The text is masked iff the input kind is password. |
| AVTextInput.AVTextInputLayout.InitMode | AVTextInputLayout/src/main/java/nagnoletti/android/avtextinputlayout/AVTextInputLayout.kt:180-194 | `Edit` makes the edit text focusable, with cursor and long click, and with no click listeners. `Click` does the reverse and installs the `onAction` listener on both the edit text and the layout. |
| AVTextInput.AVTextInputLayout.InitValidationStrategy | AVTextInputLayout/src/main/java/nagnoletti/android/avtextinputlayout/AVTextInputLayout.kt:196-213 | The handler is rebuilt around the strategy assigned at this moment, or removed when there is none. |
| AVTextInput.AVTextInputLayout.OnFinishInflate | AVTextInputLayout/src/main/java/nagnoletti/android/avtextinputlayout/AVTextInputLayout.kt:113-123 | Input type, handler, mode flags, masking and end icon are all configured as the methods above state, and the text watcher is attached. |
| AVTextInput.AVTextInputLayout.SetValidationStrategy | AVTextInputLayout/src/main/java/nagnoletti/android/avtextinputlayout/AVTextInputLayout.kt:79 | Assigning a strategy only stores it. The installed handler is left alone. |
| AVTextInput.AVTextInputLayout.SetEventListener | AVTextInputLayout/src/main/java/nagnoletti/android/avtextinputlayout/AVTextInputLayout.kt:87 | Sets or clears the listener, and nothing else. |
| AVTextInput.AVTextInputLayout.AfterTextChanged | AVTextInputLayout/src/main/java/nagnoletti/android/avtextinputlayout/AVTextInputLayout.kt:201-211 | With the watcher attached and a handler installed, the error becomes `ErrorFor` and exactly one `onValidation(Validity, text)` is delivered if a listener is set. Otherwise neither the error nor the listener is touched. |
| AVTextInput.AVTextInputLayout.TapEditText | AVTextInputLayout/src/main/java/nagnoletti/android/avtextinputlayout/AVTextInputLayout.kt:187-188 | A tap on the edit text delivers one `onAction(text)` iff the `Click` listener is installed and a listener is set. |
| AVTextInput.AVTextInputLayout.TapLayout | AVTextInputLayout/src/main/java/nagnoletti/android/avtextinputlayout/AVTextInputLayout.kt:189 | A tap on the layout delivers one `onAction(text)` iff the layout's `Click` listener is installed and a listener is set. |
| AVTextInput.AVTextInputLayout.TapEndIcon | AVTextInputLayout/src/main/java/nagnoletti/android/avtextinputlayout/AVTextInputLayout.kt:162-171 | A tap on the end icon delivers one `onAction(text)` iff the custom icon was wired and a listener is set. On the password visibility toggle it flips the masking and changes nothing else. |
| FieldViewMode.ModesSpec | TextFieldView/src/main/java/nagnoletti/android/textfieldview/TextFieldViewMode.kt:3-8 | There are exactly two modes, each listed once, with distinct raw codes. The default is `Edit`, with raw code 0. |
| FieldViewMode.FromRawSpec | TextFieldView/src/main/java/nagnoletti/android/textfieldview/TextFieldView.kt:86 | Looking up a raw code yields mode `m` iff `m`'s raw code is that code. |
| FieldViewMode.FromRawRoundTrip | TextFieldView/src/main/java/nagnoletti/android/textfieldview/TextFieldViewMode.kt:3-5 | Every mode is found again from its own raw code. |
| FieldView.DecodeModeSpec | TextFieldView/src/main/java/nagnoletti/android/textfieldview/TextFieldView.kt:81-87 | The `mode` attribute selects the mode with that raw code. An absent attribute or an unknown code gives `Edit`. |
| FieldView.DecodeInputSpec | TextFieldView/src/main/java/nagnoletti/android/textfieldview/TextFieldView.kt:89-98 | Codes 1, 2 and 3 select email, numbers and password, and each kind's code decodes back to it. An absent attribute or any other code gives text. |
| FieldView.ErrorPrecedence | TextFieldView/src/main/java/nagnoletti/android/textfieldview/TextFieldView.kt:157-164 | Null or blank text shows `notEmptyFieldError`, else the view's `fieldValidationError`. Invalid text shows `specializationFieldError`, else the same fallback. Valid text clears the error. No other message can appear. |
| FieldView.ClearedErrorIffValid | TextFieldView/src/main/java/nagnoletti/android/textfieldview/TextFieldView.kt:158-164 | With a `fieldValidationError` set, the error is cleared iff the text is non-blank and valid. |
| FieldView.RegexOnlyStrategyFallsBack | TextFieldView/src/main/java/nagnoletti/android/textfieldview/TextFieldViewValidationStrategy.kt:8-9 | In a view, a strategy that overrides only its regex shows the view's `fieldValidationError` for blank text and for text it rejects, and clears the error for non-blank text it accepts. |
| FieldView.NoneStrategyOnlyFlagsBlank | TextFieldView/src/main/java/nagnoletti/android/textfieldview/TextFieldViewValidationStrategy.kt:16-21 | Under the `None` strategy every text is valid and non-blank text clears the error, while blank text still shows the view's fallback. |
| FieldView.TextFieldView.constructor | TextFieldView/src/main/java/nagnoletti/android/textfieldview/TextFieldView.kt:70-74 | After attribute parsing, the edit text shows the decoded mode, carries the decoded input kind, is masked iff the kind is password, and has the end icon its kind and drawable call for: the toggle for password, with no `onAction` wiring, else a custom icon wired to `onAction` iff a drawable is declared. The text watcher is attached, and no strategy, handler, error or callback exists yet. |
| FieldView.TextFieldView.ParseAttributes | TextFieldView/src/main/java/nagnoletti/android/textfieldview/TextFieldView.kt:76-109 | With attributes, the mode and input setters run with the decoded values and `fieldValidationError` is read. Without them those fields and the mode flags are unchanged. In both cases masking and the end icon are configured last. |
| FieldView.TextFieldView.SetMode | TextFieldView/src/main/java/nagnoletti/android/textfieldview/TextFieldView.kt:25-29 | The mode is stored and shown at once. |
| FieldView.TextFieldView.ChangeMode | TextFieldView/src/main/java/nagnoletti/android/textfieldview/TextFieldView.kt:133-146 | `Edit` makes the edit text focusable, with cursor and long click, and with no click listeners. `Click` does the reverse and installs the `onAction` listener on both the edit text and the view. |
| FieldView.TextFieldView.SetValidationStrategy | TextFieldView/src/main/java/nagnoletti/android/textfieldview/TextFieldView.kt:31-35 | The strategy is stored and the handler is rebuilt around it at once. |
| FieldView.TextFieldView.SetValidationStrategyEffects | TextFieldView/src/main/java/nagnoletti/android/textfieldview/TextFieldView.kt:151-168 | The handler closes over the given strategy, or is removed when it is null. |
| FieldView.TextFieldView.SetInputType | TextFieldView/src/main/java/nagnoletti/android/textfieldview/TextFieldView.kt:37-42 | The kind is stored, and the edit text gets it, or text when it is null. |
| FieldView.TextFieldView.SetInputIconMode | TextFieldView/src/main/java/nagnoletti/android/textfieldview/TextFieldView.kt:111-121 | Password input gets the visibility toggle. Otherwise a declared end drawable becomes a custom icon wired to `onAction`, with the error icon removed. Otherwise nothing changes. |
| FieldView.TextFieldView.SetInputTransformationMethod | TextFieldView/src/main/java/nagnoletti/android/textfieldview/TextFieldView.kt:123-128 | The text is masked iff the input kind is password. |
| FieldView.TextFieldView.SetEventListener | TextFieldView/src/main/java/nagnoletti/android/textfieldview/TextFieldView.kt:48 | Sets or clears the listener, and nothing else. |
| FieldView.TextFieldView.AfterTextChanged | TextFieldView/src/main/java/nagnoletti/android/textfieldview/TextFieldView.kt:155-166 | With a handler installed, the error becomes `ErrorFor` and exactly one `onValidation(Validity, text)` is delivered if a listener is set. Otherwise neither the error nor the listener is touched. |
| FieldView.TextFieldView.TapEditText | TextFieldView/src/main/java/nagnoletti/android/textfieldview/TextFieldView.kt:139-140 | A tap on the edit text delivers one `onAction(text)` iff the `Click` listener is installed and a listener is set. |
| FieldView.TextFieldView.TapLayout | TextFieldView/src/main/java/nagnoletti/android/textfieldview/TextFieldView.kt:141 | A tap on the view delivers one `onAction(text)` iff the view's `Click` listener is installed and a listener is set. |
| FieldView.TextFieldView.TapEndIcon | TextFieldView/src/main/java/nagnoletti/android/textfieldview/TextFieldView.kt:111-121 | A tap on the end icon delivers one `onAction(text)` iff the custom icon was wired and a listener is set. On the password visibility toggle it flips the masking and changes nothing else. |
| AVPasswordStrategy.PasswordErrors | app/src/main/java/com/example/avtextinputlayout/PasswordValidationStrategy.kt:11-17 | In an `AVTextInputLayout`, blank text shows no error, non-blank text the regex rejects shows the password message, and an acceptable password clears the error. The reported validity is exactly acceptance. |
| AVPasswordStrategy.EmptyReportedInvalidWithoutError | app/src/main/java/com/example/avtextinputlayout/PasswordValidationStrategy.kt:11-17 | The empty text is reported invalid while no error is displayed. |
| FieldViewPasswordStrategy.PasswordErrors | app/src/main/java/com/example/textfieldviewapp/PasswordValidationStrategy.kt:9-14 | In a `TextFieldView`, blank text shows the view's `fieldValidationError`, non-blank text the regex rejects shows the password message, and an acceptable password clears the error. The reported validity is exactly acceptance. |
| WidgetScenarios.VariantsDifferOnlyOnBlankFallback | TextFieldView/src/main/java/nagnoletti/android/textfieldview/TextFieldView.kt:158-164 | With the same regex, messages and fallback, both variants report the same validity. They display different errors iff the text is blank, the strategy has no empty-input message and a fallback is set. The `AVTextInputLayout` side of the comparison is the `when` at AVTextInputLayout.kt:204-209. |
| WidgetScenarios.WholeInputNotSearch | TextFieldView/src/main/java/nagnoletti/android/textfieldview/TextFieldViewValidationStrategy.kt:11-14 | Validation matches the whole input: `x1234` contains a four-digit match, yet `^[0-9]{4}$` rejects it in both variants. |
| WidgetScenarios.FourDigitsOutcomes | AVTextInputLayout/src/main/java/nagnoletti/android/avtextinputlayout/AVTextInputLayout.kt:203-209 | With the four-digit strategy and fallback `Invalid`, the empty text and `12` are invalid and show `Required` and `4 digits`. `1234` is valid and shows no error. |
| WidgetScenarios.AVFourDigitsScenario | AVTextInputLayout/src/main/java/nagnoletti/android/avtextinputlayout/AVTextInputLayout.kt:201-211 | With a four-digit strategy (`Required`, `4 digits`) and fallback `Invalid`, typing ``, `12` and `1234` shows `Required`, `4 digits` and no error. The listener receives three validations: false, false, true. |
| WidgetScenarios.AVLateStrategyIgnored | AVTextInputLayout/src/main/java/nagnoletti/android/avtextinputlayout/AVTextInputLayout.kt:113-123 | A strategy assigned after `onFinishInflate` is never used: any text change leaves no error and no callback. |
| WidgetScenarios.FVStrategyTakesEffectOnAssignment | TextFieldView/src/main/java/nagnoletti/android/textfieldview/TextFieldView.kt:31-35 | A strategy takes effect at assignment, but the current text is not re-validated. Assigning null removes the handler, and the last error stays. |
| WidgetScenarios.AVTapByMode | AVTextInputLayout/src/main/java/nagnoletti/android/avtextinputlayout/AVTextInputLayout.kt:180-194 | In `Click` mode a tap on the edit text delivers exactly one `onAction` with the current text, and the field is not focusable. In `Edit` mode the tap delivers nothing. |
| WidgetScenarios.FVTapByMode | TextFieldView/src/main/java/nagnoletti/android/textfieldview/TextFieldView.kt:133-146 | In `Click` mode a tap on the edit text delivers exactly one `onAction` with the current text, and the field is not focusable. In `Edit` mode the tap delivers nothing. |
| WidgetScenarios.FVEndIconTapByInput | TextFieldView/src/main/java/nagnoletti/android/textfieldview/TextFieldView.kt:111-121 | With an end drawable declared, a password view starts masked. One tap on its toggle shows the text and a second tap hides it again, and neither tap reaches the listener. An email view's end icon delivers exactly one `onAction` with the current text. |
| WidgetScenarios.FVRepeatedModeAssignment | TextFieldView/src/main/java/nagnoletti/android/textfieldview/TextFieldView.kt:25-29 | Assigning a mode twice leaves the same five flags as assigning it once, whatever the previous mode, and those flags are the mode's. |

## Left out

- The Android framework is not modelled: `Context`, `AttributeSet` and `obtainStyledAttributes`, layout inflation, drawables, focus and rendering. Attributes arrive as an `Attributes` value whose fields are `None` when the attribute has no value.
- The edit text is assumed present. The `editText?.` branches for a layout without an edit text, where every such call is skipped, are not modelled.
- The `InputType` bit values are not modelled. The four `INPUT_TYPE_*` constants are the four `InputKind` values, distinct as the constants are.
- A malformed regex is not modelled. `Pattern.compile` would throw `PatternSyntaxException` inside `validate` (AVTextInputLayout.kt:71, TextFieldViewValidationStrategy.kt:12), and so inside the text-changed handler on every change. A `Pattern` here always has a total match predicate.
- Callbacks receive the live `Editable`, not a copy. `events` records the text as it was when the callback ran, so a listener that keeps the reference and sees later edits is not modelled.
- `java.util.regex` is not modelled for arbitrary patterns. A `Pattern` carries its source text and a whole-input match predicate. Only the password pattern and the four-digit example pattern have their meaning written out.
- `context.getString(R.string.password_field_error)` is a string parameter of each password strategy. The resource text itself is not modelled.
- `TextWatcher.beforeTextChanged` and `onTextChanged` do nothing and are not modelled. `afterTextChanged` is modelled together with the text change that triggers it.
- A listener is a single flag, and `events` records the callbacks delivered to it. Listener implementations that keep the default no-op for one of the two callbacks are not distinguished.
- Strings are sequences of code points, not UTF-16 units. `Char.isWhitespace` is written out as the code points it accepts today. Differences between Unicode versions, such as U+180E, are not modelled.
- Kotlin interface getters and overridden properties that compute their value on each call are modelled as fixed values.
- Both demo `MainActivity` files are not part of this model. They only wire widgets to the strategies.
