/** How the two widget variants compare, and end-to-end runs of each: a
    layout or view is built, configured, typed into and tapped, and what
    it displays and what its listener receives is stated outright. */
module WidgetScenarios {
  import opened KotlinStd
  import opened JavaRegex
  import AV = AVTextInput
  import FV = FieldView
  import FieldViewStrategy
  import FieldViewMode

  /** The same regex and messages, packaged for `AVTextInputLayout`. */
  function AVStrategy(regex: Option<Pattern>, emptyError: Option<string>, invalidError: Option<string>): AV.ValidationStrategy {
    AV.ValidationStrategy(regex, emptyError, invalidError)
  }

  /** The same regex and messages, packaged for `TextFieldView`. */
  function FVStrategy(regex: Option<Pattern>, emptyError: Option<string>, invalidError: Option<string>): FieldViewStrategy.TextFieldViewValidationStrategy {
    FieldViewStrategy.TextFieldViewValidationStrategy(regex, emptyError, invalidError)
  }

  /** Given the same regex, messages and fallback, both variants report the
      same validity, and they display different errors exactly when the
      text is blank, the strategy has no empty-input message and the
      fallback is set: only `TextFieldView` then shows the fallback. */
  lemma VariantsDifferOnlyOnBlankFallback(regex: Option<Pattern>, emptyError: Option<string>, invalidError: Option<string>,
                                          fallback: Option<string>, text: Option<string>)
    ensures AV.Validity(AVStrategy(regex, emptyError, invalidError), text)
            == FV.Validity(FVStrategy(regex, emptyError, invalidError), text)
    ensures AV.ErrorFor(AVStrategy(regex, emptyError, invalidError), fallback, text)
            != FV.ErrorFor(FVStrategy(regex, emptyError, invalidError), fallback, text)
            <==> IsNullOrBlank(text) && emptyError.None? && fallback.Some?
    ensures IsNullOrBlank(text) && emptyError.None? ==>
              AV.ErrorFor(AVStrategy(regex, emptyError, invalidError), fallback, text).None?
              && FV.ErrorFor(FVStrategy(regex, emptyError, invalidError), fallback, text) == fallback
  {
  }

  /** `^[0-9]{4}$` under `matches()`, transcribed by hand: the whole input
      is exactly four digits. */
  predicate IsFourDigits(s: string) {
    |s| == 4 && forall i :: 0 <= i < |s| ==> '0' <= s[i] <= '9'
  }

  /** A pattern accepting exactly four digits. */
  const FourDigits: Pattern := Pattern("^[0-9]{4}$", IsFourDigits)

  /** Matching is whole-input, not a search: `x1234` contains a match of
      the pattern but does not validate. The regex engine is not modelled,
      so this checks the hand transcription `IsFourDigits` as the widgets
      consult it, not `java.util.regex` itself. */
  lemma WholeInputNotSearch()
    ensures Matches(FourDigits, "x1234"[1..])
    ensures !AV.ValidationStrategy(Some(FourDigits)).Validate("x1234")
    ensures !FieldViewStrategy.TextFieldViewValidationStrategy(Some(FourDigits)).Validate("x1234")
  {
    assert "x1234"[1..] == "1234";
  }

  /** The strategy of the four-digit scenario: messages `Required` and `4 digits`. */
  const FourDigitsStrategy: AV.ValidationStrategy := AVStrategy(Some(FourDigits), Some("Required"), Some("4 digits"))

  /** What that strategy decides for the empty text, `12` and `1234`, with
      the attribute fallback `Invalid`. */
  lemma FourDigitsOutcomes()
    ensures !AV.Validity(FourDigitsStrategy, Some("")) && AV.ErrorFor(FourDigitsStrategy, Some("Invalid"), Some("")) == Some("Required")
    ensures !AV.Validity(FourDigitsStrategy, Some("12")) && AV.ErrorFor(FourDigitsStrategy, Some("Invalid"), Some("12")) == Some("4 digits")
    ensures AV.Validity(FourDigitsStrategy, Some("1234")) && AV.ErrorFor(FourDigitsStrategy, Some("Invalid"), Some("1234")).None?
  {
    assert !IsWhitespace("12"[0]);
    assert !IsWhitespace("1234"[0]);
  }

  /** A layout inflated with the attribute fallback `Invalid`, the
      four-digit strategy assigned before `onFinishInflate`, and a listener. */
  method NewFourDigitsLayout() returns (layout: AV.AVTextInputLayout)
    ensures fresh(layout)
    ensures layout.textWatcherAttached && layout.textChangedListener == Some(FourDigitsStrategy)
    ensures layout.hasEventListener && layout.invalidError == Some("Invalid") && layout.events == []
  {
    layout := new AV.AVTextInputLayout(Some(AV.Attributes(None, None, Some("Invalid"))), false, "");
    layout.SetValidationStrategy(Some(FourDigitsStrategy));
    layout.SetEventListener(true);
    layout.OnFinishInflate();
  }

  /** A layout whose strategy asks for four digits, with messages `Required`
      and `4 digits` and the attribute fallback `Invalid`: typing the empty
      text, `12` and `1234` shows `Required`, `4 digits` and no error, and
      the listener receives one validation per change, the empty text
      reported invalid. */
  method AVFourDigitsScenario() returns (e1: Option<string>, e2: Option<string>, e3: Option<string>, received: seq<AV.Event>)
    ensures e1 == Some("Required") && e2 == Some("4 digits") && e3.None?
    ensures received == [AV.Validation(false, Some("")), AV.Validation(false, Some("12")), AV.Validation(true, Some("1234"))]
  {
    FourDigitsOutcomes();
    var layout := NewFourDigitsLayout();
    layout.AfterTextChanged(Some(""));
    e1 := layout.error;
    layout.AfterTextChanged(Some("12"));
    e2 := layout.error;
    layout.AfterTextChanged(Some("1234"));
    e3 := layout.error;
    received := layout.events;
  }

  /** `AVTextInputLayout` captures its strategy in `onFinishInflate`: a
      strategy assigned afterwards is never consulted, so typing shows no
      error and the listener hears nothing. */
  method AVLateStrategyIgnored(text: Option<string>) returns (e: Option<string>, received: seq<AV.Event>)
    ensures e.None? && received == []
  {
    var layout := new AV.AVTextInputLayout(None, false, "");
    layout.SetEventListener(true);
    layout.OnFinishInflate();
    layout.SetValidationStrategy(Some(AVStrategy(Some(FourDigits), Some("Required"), Some("4 digits"))));
    layout.AfterTextChanged(text);
    e := layout.error;
    received := layout.events;
  }

  /** `TextFieldView` installs a strategy the moment it is assigned, without
      re-validating the current text: the error appears only with the next
      change; assigning null removes the handler again, and the last error
      stays on screen. */
  method FVStrategyTakesEffectOnAssignment() returns (e1: Option<string>, e2: Option<string>, e3: Option<string>,
                                                      received: seq<FV.Event>)
    ensures e1.None? && e2 == Some("4 digits") && e3 == Some("4 digits")
    ensures received == [FV.Validation(false, Some("12"))]
  {
    var view := new FV.TextFieldView(None, false, "");
    view.SetEventListener(true);
    view.AfterTextChanged(Some("12"));
    view.SetValidationStrategy(Some(FVStrategy(Some(FourDigits), None, Some("4 digits"))));
    e1 := view.error;
    assert !IsWhitespace("12"[0]);
    view.AfterTextChanged(Some("12"));
    e2 := view.error;
    view.SetValidationStrategy(None);
    view.AfterTextChanged(Some("1234"));
    e3 := view.error;
    received := view.events;
  }

  /** A layout built from `attrs` around the text `text`, with a listener
      and without a strategy, after `onFinishInflate`. */
  method NewListeningLayout(attrs: Option<AV.Attributes>, text: string) returns (layout: AV.AVTextInputLayout)
    ensures fresh(layout)
    ensures layout.mode == (if attrs.None? then AV.DefaultMode else AV.DecodeMode(attrs.value.mode))
    ensures layout.ShowsMode(layout.mode)
    ensures layout.hasEventListener && layout.events == [] && layout.text == Some(text)
  {
    layout := new AV.AVTextInputLayout(attrs, false, text);
    layout.SetEventListener(true);
    layout.OnFinishInflate();
  }

  /** In `Click` mode a tap on the edit text reaches `onAction` once, with
      the current text, and the edit text takes no focus; in `Edit` mode the
      same tap reaches nobody. */
  method AVTapByMode(text: string) returns (clickReceived: seq<AV.Event>, clickFocusable: bool, editReceived: seq<AV.Event>)
    ensures clickReceived == [AV.Action(Some(text))] && !clickFocusable
    ensures editReceived == []
  {
    AV.DecodeModeSpec(Some(AV.Mode.Click.Raw()));
    var clickLayout := NewListeningLayout(Some(AV.Attributes(Some(AV.Mode.Click.Raw()), None, None)), text);
    clickLayout.TapEditText();
    clickReceived := clickLayout.events;
    clickFocusable := clickLayout.focusableInTouchMode;

    var editLayout := NewListeningLayout(None, text);
    editLayout.TapEditText();
    editReceived := editLayout.events;
  }

  /** The same for `TextFieldView`, whose mode is applied while its attributes are read. */
  method FVTapByMode(text: string) returns (clickReceived: seq<FV.Event>, clickFocusable: bool, editReceived: seq<FV.Event>)
    ensures clickReceived == [FV.Action(Some(text))] && !clickFocusable
    ensures editReceived == []
  {
    var clickView := new FV.TextFieldView(Some(FV.Attributes(Some(FieldViewMode.TextFieldViewMode.Click.Raw()), None, None)), false, text);
    clickView.SetEventListener(true);
    clickView.TapEditText();
    clickReceived := clickView.events;
    clickFocusable := clickView.focusableInTouchMode;

    var editView := new FV.TextFieldView(None, false, text);
    editView.SetEventListener(true);
    editView.TapEditText();
    editReceived := editView.events;
  }

  /** A view declaring an end drawable: for password input the icon is the
      visibility toggle, so the text starts masked, a tap shows it and a
      second tap hides it again, and neither tap reaches the listener; for
      email input it is the custom icon and a tap reaches `onAction` once,
      with the current text. */
  method FVEndIconTapByInput(text: string)
    returns (maskedAtFirst: bool, maskedAfterTap: bool, maskedAfterTwoTaps: bool,
             passwordReceived: seq<FV.Event>, emailReceived: seq<FV.Event>)
    ensures maskedAtFirst && !maskedAfterTap && maskedAfterTwoTaps
    ensures passwordReceived == []
    ensures emailReceived == [FV.Action(Some(text))]
  {
    var passwordView := new FV.TextFieldView(Some(FV.Attributes(None, Some(FV.InputCode(FV.Password)), None)), true, text);
    passwordView.SetEventListener(true);
    maskedAtFirst := passwordView.passwordMasked;
    passwordView.TapEndIcon();
    maskedAfterTap := passwordView.passwordMasked;
    passwordView.TapEndIcon();
    maskedAfterTwoTaps := passwordView.passwordMasked;
    passwordReceived := passwordView.events;

    var emailView := new FV.TextFieldView(Some(FV.Attributes(None, Some(FV.InputCode(FV.Email)), None)), true, text);
    emailView.SetEventListener(true);
    emailView.TapEndIcon();
    emailReceived := emailView.events;
  }

  /** Assigning the same mode twice leaves the flags and listeners as one
      assignment does, whatever the previous mode. */
  method FVRepeatedModeAssignment(previous: FieldViewMode.TextFieldViewMode, m: FieldViewMode.TextFieldViewMode)
    returns (onceFlags: seq<bool>, twiceFlags: seq<bool>)
    ensures onceFlags == twiceFlags
    ensures onceFlags == [m == FieldViewMode.Edit, m == FieldViewMode.Edit, m == FieldViewMode.Edit,
                          m == FieldViewMode.Click, m == FieldViewMode.Click]
  {
    var view := new FV.TextFieldView(Some(FV.Attributes(Some(previous.Raw()), None, None)), false, "");
    view.SetMode(m);
    onceFlags := [view.focusableInTouchMode, view.cursorVisible, view.longClickable,
                  view.editTextClickListener, view.layoutClickListener];
    view.SetMode(m);
    twiceFlags := [view.focusableInTouchMode, view.cursorVisible, view.longClickable,
                   view.editTextClickListener, view.layoutClickListener];
  }
}
