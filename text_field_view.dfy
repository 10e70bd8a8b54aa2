/** `TextFieldView`, the second variant of the widget: its properties act
    through their setters, so a new mode or a new validation strategy takes
    effect the moment it is assigned. */
module FieldView {
  import opened KotlinStd
  import opened FieldViewMode
  import opened FieldViewStrategy
  import JavaRegex

  /** The `mode` attribute (`None`: absent), decoded; a missing attribute
      or a code no mode has gives the default. */
  function DecodeMode(attr: Option<int>): TextFieldViewMode {
    match attr
    case None => Default
    case Some(raw) => FromRaw(raw).GetOr(Default)
  }

  /** A present attribute naming a mode selects that mode; anything else gives `Edit`. */
  lemma DecodeModeSpec(attr: Option<int>)
    ensures forall m: TextFieldViewMode :: attr == Some(m.Raw()) ==> DecodeMode(attr) == m
    ensures (forall m: TextFieldViewMode :: attr != Some(m.Raw())) ==> DecodeMode(attr) == Edit
  {
    if attr.Some? {
      FromRawSpec(attr.value);
    }
  }

  /** The four soft-keyboard layouts (the `INPUT_TYPE_*` constants, without their bit values). */
  datatype InputKind = Text | Email | Numbers | Password

  /** The code of the `input` attribute that selects each kind; 0 stands
      for text, and any code but 1 to 3 gives text. */
  function InputCode(k: InputKind): int {
    match k
    case Text => 0
    case Email => 1
    case Numbers => 2
    case Password => 3
  }

  /** The `input` attribute (`None`: absent), decoded; anything unknown is text. */
  function DecodeInput(attr: Option<int>): InputKind {
    match attr
    case None => Text
    case Some(code) =>
      if code == 1 then Email
      else if code == 2 then Numbers
      else if code == 3 then Password
      else Text
  }

  /** Each kind's code decodes back to that kind, and only its code yields a
      kind other than text. */
  lemma DecodeInputSpec(attr: Option<int>)
    ensures forall k :: DecodeInput(Some(InputCode(k))) == k
    ensures DecodeInput(attr) != Text ==> attr == Some(InputCode(DecodeInput(attr)))
    ensures (attr.None? || attr.value !in {1, 2, 3}) ==> DecodeInput(attr) == Text
  {
  }

  /** The styleable attributes the view reads (`None`: no value). */
  datatype Attributes = Attributes(mode: Option<int>, input: Option<int>, fieldValidationError: Option<string>)

  /** The validity the text-changed handler reports: true for a null text. */
  function Validity(s: TextFieldViewValidationStrategy, text: Option<string>): bool {
    match text
    case None => true
    case Some(t) => s.Validate(t)
  }

  /** The error the text-changed handler displays: for null or blank text
      the strategy's `notEmptyFieldError`, else the view's
      `fieldValidationError`; for invalid text its `specializationFieldError`,
      else the same fallback; otherwise none. */
  function ErrorFor(s: TextFieldViewValidationStrategy, fieldValidationError: Option<string>, text: Option<string>): Option<string> {
    if IsNullOrBlank(text) then s.notEmptyFieldError.OrElse(fieldValidationError)
    else if !Validity(s, text) then s.specializationFieldError.OrElse(fieldValidationError)
    else None
  }

  /** The precedence of the handler's error, case by case, and the only
      messages it can ever show. */
  lemma ErrorPrecedence(s: TextFieldViewValidationStrategy, fallback: Option<string>, text: Option<string>)
    ensures IsNullOrBlank(text) && s.notEmptyFieldError.Some? ==> ErrorFor(s, fallback, text) == s.notEmptyFieldError
    ensures IsNullOrBlank(text) && s.notEmptyFieldError.None? ==> ErrorFor(s, fallback, text) == fallback
    ensures !IsNullOrBlank(text) && !Validity(s, text) && s.specializationFieldError.Some? ==>
              ErrorFor(s, fallback, text) == s.specializationFieldError
    ensures !IsNullOrBlank(text) && !Validity(s, text) && s.specializationFieldError.None? ==>
              ErrorFor(s, fallback, text) == fallback
    ensures !IsNullOrBlank(text) && Validity(s, text) ==> ErrorFor(s, fallback, text) == None
    ensures ErrorFor(s, fallback, text) in {None, s.notEmptyFieldError, s.specializationFieldError, fallback}
  {
  }

  /** With a `fieldValidationError` set, the error is cleared exactly when
      the text is non-blank and valid. */
  lemma ClearedErrorIffValid(s: TextFieldViewValidationStrategy, fallback: Option<string>, text: Option<string>)
    requires fallback.Some?
    ensures ErrorFor(s, fallback, text).None? <==> !IsNullOrBlank(text) && Validity(s, text)
  {
  }

  /** A strategy that overrides only its regex has no messages of its own,
      so in a view every complaint it raises shows the view's
      `fieldValidationError`, and a non-blank text it accepts clears the error. */
  lemma RegexOnlyStrategyFallsBack(regex: Option<JavaRegex.Pattern>, fallback: Option<string>, text: Option<string>)
    ensures IsNullOrBlank(text) ==> ErrorFor(TextFieldViewValidationStrategy(regex), fallback, text) == fallback
    ensures !IsNullOrBlank(text) && !Validity(TextFieldViewValidationStrategy(regex), text) ==>
              ErrorFor(TextFieldViewValidationStrategy(regex), fallback, text) == fallback
    ensures !IsNullOrBlank(text) && Validity(TextFieldViewValidationStrategy(regex), text) ==>
              ErrorFor(TextFieldViewValidationStrategy(regex), fallback, text).None?
  {
  }

  /** The `None` strategy never complains about non-blank text, yet blank
      text still shows the view's `fieldValidationError`. */
  lemma NoneStrategyOnlyFlagsBlank(fallback: Option<string>, text: Option<string>)
    ensures Validity(NoneStrategy, text)
    ensures !IsNullOrBlank(text) ==> ErrorFor(NoneStrategy, fallback, text).None?
    ensures IsNullOrBlank(text) ==> ErrorFor(NoneStrategy, fallback, text) == fallback
  {
  }

  /** What the `EventListener` receives. */
  datatype Event = Action(text: Option<string>) | Validation(isValid: bool, text: Option<string>)

  /** What the end icon shows: left as the layout declared it, the password
      visibility toggle, or a custom icon. */
  datatype EndIconMode = Declared | PasswordToggle | Custom

  /** The view, its inflated edit text reduced to the flags the widget sets,
      and the callbacks its `EventListener` has received so far (`events`). */
  class TextFieldView {
    var mode: TextFieldViewMode
    var validationStrategy: Option<TextFieldViewValidationStrategy>
    var inputType: Option<InputKind>
    var fieldValidationError: Option<string>
    var hasEventListener: bool
    /** `textChangedListener`: absent, or the handler closing over the strategy it was built with. */
    var textChangedListener: Option<TextFieldViewValidationStrategy>
    /** Whether `textWatcher` has been added to the edit text. */
    var textWatcherAttached: bool

    /** Whether the layout declares an end icon drawable. */
    const hasEndIconDrawable: bool
    /** The edit text's content (`editText?.text`). */
    var text: Option<string>
    /** The edit text's input type; `None` while the widget has not set it. */
    var editTextInputType: Option<InputKind>
    var focusableInTouchMode: bool
    var cursorVisible: bool
    var longClickable: bool
    /** Whether the `onAction` click listener is set on the edit text, and on the view. */
    var editTextClickListener: bool
    var layoutClickListener: bool
    /** Whether the edit text's transformation method masks the text as a password. */
    var passwordMasked: bool
    var endIconMode: EndIconMode
    /** Whether the end icon's click listener forwards to `onAction`. */
    var endIconClickListener: bool
    var errorIconCleared: bool
    /** The error the view displays (`error`). */
    var error: Option<string>
    /** The callbacks delivered to the event listener, oldest first. */
    var events: seq<Event>

    /** The edit text is set up for mode `m`: focusable, with cursor and long
        click, and without click listeners for `Edit`; none of the three, and
        the `onAction` listener on both the edit text and the view, for `Click`. */
    ghost predicate ShowsMode(m: TextFieldViewMode)
      reads this
    {
      && focusableInTouchMode == (m == Edit) && cursorVisible == (m == Edit) && longClickable == (m == Edit)
      && editTextClickListener == (m == Click) && layoutClickListener == (m == Click)
    }

    /** The constructor: field defaults, `parseAttributes(attrs)`, then the
        text watcher is added. The inflated edit text starts editable,
        unmasked and without click listeners; without attributes no setter
        runs, so it stays that way and masking and the toggle stay off. */
    constructor (attrs: Option<Attributes>, hasEndIconDrawable: bool, initialText: string)
      ensures attrs.None? ==> && mode == Default && inputType.None? && fieldValidationError.None?
                              && editTextInputType.None?
      ensures attrs.Some? ==> && mode == DecodeMode(attrs.value.mode)
                              && inputType == Some(DecodeInput(attrs.value.input))
                              && fieldValidationError == attrs.value.fieldValidationError
                              && editTextInputType == inputType
      ensures ShowsMode(mode)
      ensures passwordMasked <==> inputType == Some(Password)
      ensures endIconMode == (if inputType == Some(Password) then PasswordToggle
                              else if hasEndIconDrawable then Custom else Declared)
      ensures endIconClickListener == (inputType != Some(Password) && hasEndIconDrawable)
      ensures errorIconCleared == (inputType != Some(Password) && hasEndIconDrawable)
      ensures validationStrategy.None? && textChangedListener.None? && !hasEventListener
      ensures textWatcherAttached
      ensures this.hasEndIconDrawable == hasEndIconDrawable && text == Some(initialText)
      ensures error.None? && events == []
    {
      mode := Default;
      validationStrategy := None;
      inputType := None;
      fieldValidationError := None;
      hasEventListener := false;
      textChangedListener := None;
      textWatcherAttached := false;
      this.hasEndIconDrawable := hasEndIconDrawable;
      text := Some(initialText);
      editTextInputType := None;
      focusableInTouchMode, cursorVisible, longClickable := true, true, true;
      editTextClickListener, layoutClickListener := false, false;
      passwordMasked := false;
      endIconMode := Declared;
      endIconClickListener := false;
      errorIconCleared := false;
      error := None;
      events := [];
      new;
      ParseAttributes(attrs);
      textWatcherAttached := true;
    }

    /** `parseAttributes`: with attributes, the `mode` and `inputType`
        setters run with the decoded values and `fieldValidationError` is
        read; in every case masking and the end icon are configured last. */
    method ParseAttributes(attrs: Option<Attributes>)
      modifies this`mode, this`inputType, this`fieldValidationError, this`editTextInputType,
               this`focusableInTouchMode, this`cursorVisible, this`longClickable,
               this`editTextClickListener, this`layoutClickListener, this`passwordMasked,
               this`endIconMode, this`endIconClickListener, this`errorIconCleared
      ensures attrs.None? ==> unchanged(this`mode, this`inputType, this`fieldValidationError, this`editTextInputType,
                                        this`focusableInTouchMode, this`cursorVisible, this`longClickable,
                                        this`editTextClickListener, this`layoutClickListener)
      ensures attrs.Some? ==> && mode == DecodeMode(attrs.value.mode)
                              && inputType == Some(DecodeInput(attrs.value.input))
                              && fieldValidationError == attrs.value.fieldValidationError
                              && editTextInputType == inputType
                              && ShowsMode(mode)
      ensures passwordMasked <==> inputType == Some(Password)
      ensures inputType == Some(Password) ==>
                endIconMode == PasswordToggle
                && endIconClickListener == old(endIconClickListener) && errorIconCleared == old(errorIconCleared)
      ensures inputType != Some(Password) && hasEndIconDrawable ==>
                endIconMode == Custom && endIconClickListener && errorIconCleared
      ensures inputType != Some(Password) && !hasEndIconDrawable ==>
                endIconMode == old(endIconMode)
                && endIconClickListener == old(endIconClickListener) && errorIconCleared == old(errorIconCleared)
    {
      if attrs.Some? {
        var a := attrs.value;
        SetMode(DecodeMode(a.mode));
        SetInputType(Some(DecodeInput(a.input)));
        fieldValidationError := a.fieldValidationError;
      }
      SetInputTransformationMethod();
      SetInputIconMode();
    }

    /** The `mode` setter: store the mode and apply it at once with `changeMode`. */
    method SetMode(m: TextFieldViewMode)
      modifies this`mode, this`focusableInTouchMode, this`cursorVisible, this`longClickable,
               this`editTextClickListener, this`layoutClickListener
      ensures mode == m
      ensures ShowsMode(m)
    {
      mode := m;
      ChangeMode(m);
    }

    /** `changeMode`: `Edit` makes the edit text focusable, with cursor and
        long click, and removes both click listeners; `Click` turns the three
        off and installs the `onAction` listener on the edit text and the
        view. The new flags depend on `m` alone, so repeating it changes nothing. */
    method ChangeMode(m: TextFieldViewMode)
      modifies this`focusableInTouchMode, this`cursorVisible, this`longClickable,
               this`editTextClickListener, this`layoutClickListener
      ensures ShowsMode(m)
    {
      var isEditMode := m == Edit;
      focusableInTouchMode := isEditMode;
      cursorVisible := isEditMode;
      longClickable := isEditMode;
      if !isEditMode {
        editTextClickListener := true;
        layoutClickListener := true;
      } else {
        editTextClickListener := false;
        layoutClickListener := false;
      }
    }

    /** The `validationStrategy` setter: store the strategy and rebuild the
        handler around it at once; the current text is not re-validated. */
    method SetValidationStrategy(s: Option<TextFieldViewValidationStrategy>)
      modifies this`validationStrategy, this`textChangedListener
      ensures validationStrategy == s && textChangedListener == s
    {
      validationStrategy := s;
      SetValidationStrategyEffects(s);
    }

    /** `setValidationStrategyEffects`: the handler closes over `s`, or is removed when `s` is null. */
    method SetValidationStrategyEffects(s: Option<TextFieldViewValidationStrategy>)
      modifies this`textChangedListener
      ensures textChangedListener == s
    {
      textChangedListener := None;
      if s.Some? {
        textChangedListener := s;
      }
    }

    /** The `inputType` setter: store the kind and give the edit text that
        kind, or text when it is null. */
    method SetInputType(k: Option<InputKind>)
      modifies this`inputType, this`editTextInputType
      ensures inputType == k && editTextInputType == Some(k.GetOr(Text))
    {
      inputType := k;
      editTextInputType := Some(k.GetOr(Text));
    }

    /** `setInputIconMode`: password input gets the visibility toggle;
        otherwise a declared end drawable becomes a custom icon wired to
        `onAction`, with the error icon removed; otherwise nothing changes. */
    method SetInputIconMode()
      modifies this`endIconMode, this`endIconClickListener, this`errorIconCleared
      ensures inputType == Some(Password) ==>
                endIconMode == PasswordToggle
                && endIconClickListener == old(endIconClickListener) && errorIconCleared == old(errorIconCleared)
      ensures inputType != Some(Password) && hasEndIconDrawable ==>
                endIconMode == Custom && endIconClickListener && errorIconCleared
      ensures inputType != Some(Password) && !hasEndIconDrawable ==>
                endIconMode == old(endIconMode)
                && endIconClickListener == old(endIconClickListener) && errorIconCleared == old(errorIconCleared)
    {
      if inputType == Some(Password) {
        endIconMode := PasswordToggle;
      } else if hasEndIconDrawable {
        errorIconCleared := true;
        endIconMode := Custom;
        endIconClickListener := true;
      }
    }

    /** `setInputTransformationMethod`: the text is masked exactly for password input. */
    method SetInputTransformationMethod()
      modifies this`passwordMasked
      ensures passwordMasked <==> inputType == Some(Password)
    {
      passwordMasked := inputType == Some(Password);
    }

    /** Assigning `eventListener` (`present`: non-null). */
    method SetEventListener(present: bool)
      modifies this`hasEventListener
      ensures hasEventListener == present
    {
      hasEventListener := present;
    }

    /** The edit text's content changes to `t` and the text watcher's
        `afterTextChanged` runs: with a handler installed it displays
        `ErrorFor` and reports `Validity` to the listener, once; without one
        the error and the listener are left alone. */
    method AfterTextChanged(t: Option<string>)
      modifies this`text, this`error, this`events
      ensures text == t
      ensures textWatcherAttached && textChangedListener.Some? ==>
                && error == ErrorFor(textChangedListener.value, fieldValidationError, t)
                && events == old(events) + (if hasEventListener then [Validation(Validity(textChangedListener.value, t), t)] else [])
      ensures !(textWatcherAttached && textChangedListener.Some?) ==> error == old(error) && events == old(events)
    {
      text := t;
      if textWatcherAttached && textChangedListener.Some? {
        var s := textChangedListener.value;
        var isValid := Validity(s, t);
        error := ErrorFor(s, fieldValidationError, t);
        if hasEventListener {
          events := events + [Validation(isValid, t)];
        }
      }
    }

    /** A tap on the edit text: forwarded to `onAction` only through the `Click` mode listener. */
    method TapEditText()
      modifies this`events
      ensures events == old(events) + (if editTextClickListener && hasEventListener then [Action(text)] else [])
    {
      if editTextClickListener && hasEventListener {
        events := events + [Action(text)];
      }
    }

    /** A tap on the view outside the edit text. */
    method TapLayout()
      modifies this`events
      ensures events == old(events) + (if layoutClickListener && hasEventListener then [Action(text)] else [])
    {
      if layoutClickListener && hasEventListener {
        events := events + [Action(text)];
      }
    }

    /** A tap on the end icon: the custom icon, when wired, forwards it to
        `onAction`; the password visibility toggle shows or hides the text,
        flipping the mask each time. */
    method TapEndIcon()
      modifies this`events, this`passwordMasked
      ensures events == old(events) + (if endIconClickListener && hasEventListener then [Action(text)] else [])
      ensures passwordMasked == (if endIconMode == PasswordToggle then !old(passwordMasked) else old(passwordMasked))
    {
      if endIconClickListener && hasEventListener {
        events := events + [Action(text)];
      }
      if endIconMode == PasswordToggle {
        passwordMasked := !passwordMasked;
      }
    }
  }
}
