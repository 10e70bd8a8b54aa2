/** `AVTextInputLayout`, the "action-validation" text input layout: its tap
    mode, its validation strategy interface, the attribute decoding done at
    construction and the configuration `onFinishInflate` applies once. */
module AVTextInput {
  import opened KotlinStd
  import opened JavaRegex

  /** `AVTextInputLayout.Mode`: which taps reach `onAction`. */
  datatype Mode = Edit | Click {
    /** The raw attribute code of the mode. */
    function Raw(): int {
      match this
      case Edit => 0
      case Click => 1
    }
  }

  /** `Mode.default` */
  const DefaultMode: Mode := Edit

  /** `Mode.values()`, in declaration order. */
  const AllModes: seq<Mode> := [Edit, Click]

  /** `Mode.values().singleOrNull { it.raw == raw }` */
  function ModeFromRaw(raw: int): Option<Mode> {
    SingleOrNull(AllModes, (m: Mode) => m.Raw() == raw)
  }

  /** A mode is found by its raw code, and by no other code. */
  lemma ModeFromRawSpec(raw: int)
    ensures forall m: Mode :: ModeFromRaw(raw) == Some(m) <==> m.Raw() == raw
  {
    var p := (m: Mode) => m.Raw() == raw;
    if raw == 0 {
      FilterSingleHit(AllModes, p, 0);
    } else if raw == 1 {
      FilterSingleHit(AllModes, p, 1);
    } else {
      FilterNoHit(AllModes, p);
    }
  }

  /** The `mode` attribute: its raw value when present (`None`: absent). */
  function DecodeMode(attr: Option<int>): Mode {
    match attr
    case None => DefaultMode
    case Some(raw) => ModeFromRaw(raw).GetOr(DefaultMode)
  }

  /** A present attribute naming a mode selects that mode; a missing one,
      or a code no mode has, falls back to `Edit`. */
  lemma DecodeModeSpec(attr: Option<int>)
    ensures forall m: Mode :: attr == Some(m.Raw()) ==> DecodeMode(attr) == m
    ensures (forall m: Mode :: attr != Some(m.Raw())) ==> DecodeMode(attr) == Edit
  {
    if attr.Some? {
      ModeFromRawSpec(attr.value);
    }
  }

  /** The four soft-keyboard layouts the widget chooses between (the
      `INPUT_TYPE_*` constants, without their bit values). */
  datatype InputKind = Text | Email | Numbers | Password

  /** The code of the `input` attribute that selects each kind; 0 stands
      for text, and any code but 1 to 3 gives text. */
  function InputCode(k: InputKind): int {
    match k
    case Text => 0
    case Email => 1
    case Numbers => 2
    case Password => 3
  }

  /** The `input` attribute (`None`: absent), decoded; anything unknown is text. */
  function DecodeInput(attr: Option<int>): InputKind {
    match attr
    case None => Text
    case Some(code) =>
      if code == 1 then Email
      else if code == 2 then Numbers
      else if code == 3 then Password
      else Text
  }

  /** Each kind's code decodes back to that kind, and only its code yields a
      kind other than text. */
  lemma DecodeInputSpec(attr: Option<int>)
    ensures forall k :: DecodeInput(Some(InputCode(k))) == k
    ensures DecodeInput(attr) != Text ==> attr == Some(InputCode(DecodeInput(attr)))
    ensures (attr.None? || attr.value !in {1, 2, 3}) ==> DecodeInput(attr) == Text
  {
  }

  /** The styleable attributes the layout reads (`None`: no value). */
  datatype Attributes = Attributes(mode: Option<int>, input: Option<int>, invalidError: Option<string>)

  /** `AVTextInputLayout.ValidationStrategy`; every member defaults to null. */
  datatype ValidationStrategy = ValidationStrategy(
    regex: Option<Pattern> := None,
    emptyInputError: Option<string> := None,
    invalidInputError: Option<string> := None)
  {
    /** `validate(text)`: true when there is no regex, else a whole-input match. */
    predicate Validate(text: string) {
      match regex
      case None => true
      case Some(p) => Matches(p, text)
    }
  }

  /** The validity the text-changed handler reports: true for a null text. */
  function Validity(s: ValidationStrategy, text: Option<string>): bool {
    match text
    case None => true
    case Some(t) => s.Validate(t)
  }

  /** The error the text-changed handler displays: the strategy's empty
      error for null or blank text (with no fallback), then the strategy's
      invalid error or else the layout's `invalidError`, then none. */
  function ErrorFor(s: ValidationStrategy, invalidError: Option<string>, text: Option<string>): Option<string> {
    if IsNullOrBlank(text) then s.emptyInputError
    else if !Validity(s, text) then s.invalidInputError.OrElse(invalidError)
    else None
  }

  /** The precedence of the handler's error, case by case, and the only
      messages it can ever show. */
  lemma ErrorPrecedence(s: ValidationStrategy, invalidError: Option<string>, text: Option<string>)
    ensures IsNullOrBlank(text) ==> ErrorFor(s, invalidError, text) == s.emptyInputError
    ensures !IsNullOrBlank(text) && !Validity(s, text) && s.invalidInputError.Some? ==>
              ErrorFor(s, invalidError, text) == s.invalidInputError
    ensures !IsNullOrBlank(text) && !Validity(s, text) && s.invalidInputError.None? ==>
              ErrorFor(s, invalidError, text) == invalidError
    ensures !IsNullOrBlank(text) && Validity(s, text) ==> ErrorFor(s, invalidError, text) == None
    ensures ErrorFor(s, invalidError, text) in {None, s.emptyInputError, s.invalidInputError, invalidError}
  {
  }

  /** Blank text never shows the layout's own `invalidError`: whatever the
      fallback, the message is the same. */
  lemma BlankIgnoresFallback(s: ValidationStrategy, fallback1: Option<string>, fallback2: Option<string>, text: Option<string>)
    requires IsNullOrBlank(text)
    ensures ErrorFor(s, fallback1, text) == ErrorFor(s, fallback2, text)
  {
  }

  /** A cleared error on non-blank text means the text was valid, unless
      neither the strategy nor the layout has an invalid-input message. */
  lemma ClearedErrorMeansValid(s: ValidationStrategy, invalidError: Option<string>, text: Option<string>)
    requires !IsNullOrBlank(text) && ErrorFor(s, invalidError, text).None?
    requires s.invalidInputError.Some? || invalidError.Some?
    ensures Validity(s, text)
  {
  }

  /** What the `EventListener` receives. */
  datatype Event = Action(text: Option<string>) | Validation(isValid: bool, text: Option<string>)

  /** What the end icon shows: left as the layout declared it, the password
      visibility toggle, or a custom icon. */
  datatype EndIconMode = Declared | PasswordToggle | Custom

  /** The layout, its edit text reduced to the flags the widget sets, and
      the callbacks its `EventListener` has received so far (`events`). The
      edit text is assumed present. */
  class AVTextInputLayout {
    var mode: Mode
    var validationStrategy: Option<ValidationStrategy>
    var inputType: Option<InputKind>
    var invalidError: Option<string>
    var hasEventListener: bool
    /** `textChangedListener`: absent, or the handler closing over the strategy it was built with. */
    var textChangedListener: Option<ValidationStrategy>
    /** Whether `textWatcher` has been added to the edit text. */
    var textWatcherAttached: bool

    /** Whether the layout declares an end icon drawable. */
    const hasEndIconDrawable: bool
    /** The edit text's content (`editText?.text`). */
    var text: Option<string>
    /** The edit text's input type; `None` while the widget has not set it. */
    var editTextInputType: Option<InputKind>
    var focusableInTouchMode: bool
    var cursorVisible: bool
    var longClickable: bool
    /** Whether the `onAction` click listener is set on the edit text, and on the layout. */
    var editTextClickListener: bool
    var layoutClickListener: bool
    /** Whether the edit text's transformation method masks the text as a password. */
    var passwordMasked: bool
    var endIconMode: EndIconMode
    /** Whether the end icon's click listener forwards to `onAction`. */
    var endIconClickListener: bool
    var errorIconCleared: bool
    /** The error the layout displays (`error`). */
    var error: Option<string>
    /** The callbacks delivered to the event listener, oldest first. */
    var events: seq<Event>

    /** The edit text is set up for mode `m`: focusable, with cursor and long
        click, and without click listeners for `Edit`; none of the three, and
        the `onAction` listener on both the edit text and the layout, for `Click`. */
    ghost predicate ShowsMode(m: Mode)
      reads this
    {
      && focusableInTouchMode == (m == Edit) && cursorVisible == (m == Edit) && longClickable == (m == Edit)
      && editTextClickListener == (m == Click) && layoutClickListener == (m == Click)
    }

    /** The constructor: field defaults, then `parseAttributes(attrs)`. The edit
        text starts editable, unmasked and without click listeners. */
    constructor (attrs: Option<Attributes>, hasEndIconDrawable: bool, initialText: string)
      ensures attrs.None? ==> mode == DefaultMode && inputType.None? && invalidError.None?
      ensures attrs.Some? ==> && mode == DecodeMode(attrs.value.mode)
                              && inputType == Some(DecodeInput(attrs.value.input))
                              && invalidError == attrs.value.invalidError
      ensures validationStrategy.None? && !hasEventListener
      ensures textChangedListener.None? && !textWatcherAttached
      ensures this.hasEndIconDrawable == hasEndIconDrawable && text == Some(initialText)
      ensures editTextInputType.None? && focusableInTouchMode && cursorVisible && longClickable
      ensures !editTextClickListener && !layoutClickListener && !passwordMasked
      ensures endIconMode == Declared && !endIconClickListener && !errorIconCleared
      ensures error.None? && events == []
    {
      mode := DefaultMode;
      validationStrategy := None;
      inputType := None;
      invalidError := None;
      hasEventListener := false;
      textChangedListener := None;
      textWatcherAttached := false;
      this.hasEndIconDrawable := hasEndIconDrawable;
      text := Some(initialText);
      editTextInputType := None;
      focusableInTouchMode, cursorVisible, longClickable := true, true, true;
      editTextClickListener, layoutClickListener := false, false;
      passwordMasked := false;
      endIconMode := Declared;
      endIconClickListener := false;
      errorIconCleared := false;
      error := None;
      events := [];
      new;
      ParseAttributes(attrs);
    }

    /** `parseAttributes`: with attributes, the mode, input kind and invalid
        error are decoded (an unknown input code still gives text); without
        them nothing changes. */
    method ParseAttributes(attrs: Option<Attributes>)
      modifies this`mode, this`inputType, this`invalidError
      ensures attrs.None? ==> mode == old(mode) && inputType == old(inputType) && invalidError == old(invalidError)
      ensures attrs.Some? ==> && mode == DecodeMode(attrs.value.mode)
                              && inputType == Some(DecodeInput(attrs.value.input))
                              && invalidError == attrs.value.invalidError
    {
      if attrs.Some? {
        var a := attrs.value;
        mode := DecodeMode(a.mode);
        inputType := Some(DecodeInput(a.input));
        invalidError := a.invalidError;
      }
    }

    /** `initInputType`: the edit text gets the chosen kind, or text when none was chosen. */
    method InitInputType()
      modifies this`editTextInputType
      ensures editTextInputType == Some(inputType.GetOr(Text))
      ensures inputType.None? ==> editTextInputType == Some(Text)
    {
      editTextInputType := Some(inputType.GetOr(Text));
    }

    /** `setInputIconMode`: password input gets the visibility toggle;
        otherwise a declared end drawable becomes a custom icon wired to
        `onAction`, with the error icon removed; otherwise nothing changes. */
    method SetInputIconMode()
      modifies this`endIconMode, this`endIconClickListener, this`errorIconCleared
      ensures inputType == Some(Password) ==>
                endIconMode == PasswordToggle
                && endIconClickListener == old(endIconClickListener) && errorIconCleared == old(errorIconCleared)
      ensures inputType != Some(Password) && hasEndIconDrawable ==>
                endIconMode == Custom && endIconClickListener && errorIconCleared
      ensures inputType != Some(Password) && !hasEndIconDrawable ==>
                endIconMode == old(endIconMode)
                && endIconClickListener == old(endIconClickListener) && errorIconCleared == old(errorIconCleared)
    {
      if inputType == Some(Password) {
        endIconMode := PasswordToggle;
      } else if hasEndIconDrawable {
        errorIconCleared := true;
        endIconMode := Custom;
        endIconClickListener := true;
      }
    }

    /** `setInputTransformationMethod`: the text is masked exactly for password input. */
    method SetInputTransformationMethod()
      modifies this`passwordMasked
      ensures passwordMasked <==> inputType == Some(Password)
    {
      passwordMasked := inputType == Some(Password);
    }

    /** `initMode`: `Edit` makes the edit text focusable, with cursor and long
        click, and removes both click listeners; `Click` turns the three off
        and installs the `onAction` listener on the edit text and the layout.
        The new flags depend on the mode alone, so applying it again changes nothing. */
    method InitMode()
      modifies this`focusableInTouchMode, this`cursorVisible, this`longClickable,
               this`editTextClickListener, this`layoutClickListener
      ensures ShowsMode(mode)
    {
      var isEditMode := mode == Edit;
      focusableInTouchMode := isEditMode;
      cursorVisible := isEditMode;
      longClickable := isEditMode;
      if !isEditMode {
        editTextClickListener := true;
        layoutClickListener := true;
      } else {
        editTextClickListener := false;
        layoutClickListener := false;
      }
    }

    /** `initValidationStrategy`: the handler is rebuilt around the strategy
        assigned at this moment, or removed when there is none. */
    method InitValidationStrategy()
      modifies this`textChangedListener
      ensures textChangedListener == validationStrategy
    {
      textChangedListener := None;
      if validationStrategy.Some? {
        textChangedListener := validationStrategy;
      }
    }

    /** `onFinishInflate`: the one-time configuration, after which the text
        watcher is listening. */
    method OnFinishInflate()
      modifies this`editTextInputType, this`textChangedListener,
               this`focusableInTouchMode, this`cursorVisible, this`longClickable,
               this`editTextClickListener, this`layoutClickListener, this`passwordMasked,
               this`endIconMode, this`endIconClickListener, this`errorIconCleared, this`textWatcherAttached
      ensures editTextInputType == Some(inputType.GetOr(Text))
      ensures textChangedListener == validationStrategy
      ensures ShowsMode(mode)
      ensures passwordMasked <==> inputType == Some(Password)
      ensures inputType == Some(Password) ==>
                endIconMode == PasswordToggle
                && endIconClickListener == old(endIconClickListener) && errorIconCleared == old(errorIconCleared)
      ensures inputType != Some(Password) && hasEndIconDrawable ==>
                endIconMode == Custom && endIconClickListener && errorIconCleared
      ensures inputType != Some(Password) && !hasEndIconDrawable ==>
                endIconMode == old(endIconMode)
                && endIconClickListener == old(endIconClickListener) && errorIconCleared == old(errorIconCleared)
      ensures textWatcherAttached
    {
      InitInputType();
      InitValidationStrategy();
      InitMode();
      SetInputTransformationMethod();
      SetInputIconMode();
      textWatcherAttached := true;
    }

    /** Assigning `validationStrategy` only stores it: the handler keeps the
        strategy captured by `onFinishInflate`. */
    method SetValidationStrategy(s: Option<ValidationStrategy>)
      modifies this`validationStrategy
      ensures validationStrategy == s
    {
      validationStrategy := s;
    }

    /** Assigning `eventListener` (`present`: non-null). */
    method SetEventListener(present: bool)
      modifies this`hasEventListener
      ensures hasEventListener == present
    {
      hasEventListener := present;
    }

    /** The edit text's content changes to `t` and the text watcher's
        `afterTextChanged` runs: with a handler installed it displays
        `ErrorFor` and reports `Validity` to the listener, even for blank
        text; without one the error and the listener are left alone. */
    method AfterTextChanged(t: Option<string>)
      modifies this`text, this`error, this`events
      ensures text == t
      ensures textWatcherAttached && textChangedListener.Some? ==>
                && error == ErrorFor(textChangedListener.value, invalidError, t)
                && events == old(events) + (if hasEventListener then [Validation(Validity(textChangedListener.value, t), t)] else [])
      ensures !(textWatcherAttached && textChangedListener.Some?) ==> error == old(error) && events == old(events)
    {
      text := t;
      if textWatcherAttached && textChangedListener.Some? {
        var s := textChangedListener.value;
        var isValid := Validity(s, t);
        error := ErrorFor(s, invalidError, t);
        if hasEventListener {
          events := events + [Validation(isValid, t)];
        }
      }
    }

    /** A tap on the edit text: forwarded to `onAction` only through the `Click` mode listener. */
    method TapEditText()
      modifies this`events
      ensures events == old(events) + (if editTextClickListener && hasEventListener then [Action(text)] else [])
    {
      if editTextClickListener && hasEventListener {
        events := events + [Action(text)];
      }
    }

    /** A tap on the layout outside the edit text. */
    method TapLayout()
      modifies this`events
      ensures events == old(events) + (if layoutClickListener && hasEventListener then [Action(text)] else [])
    {
      if layoutClickListener && hasEventListener {
        events := events + [Action(text)];
      }
    }

    /** A tap on the end icon: the custom icon, when wired, forwards it to
        `onAction`; the password visibility toggle shows or hides the text,
        flipping the mask each time. */
    method TapEndIcon()
      modifies this`events, this`passwordMasked
      ensures events == old(events) + (if endIconClickListener && hasEventListener then [Action(text)] else [])
      ensures passwordMasked == (if endIconMode == PasswordToggle then !old(passwordMasked) else old(passwordMasked))
    {
      if endIconClickListener && hasEventListener {
        events := events + [Action(text)];
      }
      if endIconMode == PasswordToggle {
        passwordMasked := !passwordMasked;
      }
    }
  }
}
