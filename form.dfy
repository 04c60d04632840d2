/** The state machine of the sign-up form (components/SignUpForm.js, without its markup).

    The component owns five state cells: the field values, the per-field errors, the
    in-flight flag, the submission-level error and the account returned on success. Each
    handler is one method of `SignUpForm`; the asynchronous `handleSubmit` is split at its
    one suspension point into `BeginSubmit` (validate, raise the flag, hand back the request
    for the gateway) and `CompleteSubmit` (consume the gateway's outcome, lower the flag). */
module Form {
  import opened Wrappers
  import opened Validation

  // ---------------------------------------------------------------------------
  // Field values
  // ---------------------------------------------------------------------------

  datatype Field = FullName | Email | Password | ConfirmPassword | AcceptTerms

  datatype FormData = FormData(
    fullName: string,
    email: string,
    password: string,
    confirmPassword: string,
    acceptTerms: bool)

  /** The values the form starts with and returns to on "start over". */
  const EmptyForm := FormData("", "", "", "", false)

  /** What an input-change event carries: the text of a text input, or the `checked` state
      of the checkbox. */
  datatype InputValue = Text(text: string) | Checked(checked: bool)

  /** Only the terms input is a checkbox; every other input delivers text. */
  predicate Fits(name: Field, value: InputValue) {
    value.Checked? <==> name == AcceptTerms
  }

  /** `formData[name]`. */
  function ValueOf(d: FormData, name: Field): (v: InputValue)
    ensures Fits(name, v)
  {
    match name
    case FullName => Text(d.fullName)
    case Email => Text(d.email)
    case Password => Text(d.password)
    case ConfirmPassword => Text(d.confirmPassword)
    case AcceptTerms => Checked(d.acceptTerms)
  }

  /** Two value records that agree on every field are the same record. */
  lemma SameValuesSameForm(d: FormData, e: FormData)
    requires forall f :: ValueOf(d, f) == ValueOf(e, f)
    ensures d == e
  {
    assert ValueOf(d, FullName) == ValueOf(e, FullName);
    assert ValueOf(d, Email) == ValueOf(e, Email);
    assert ValueOf(d, Password) == ValueOf(e, Password);
    assert ValueOf(d, ConfirmPassword) == ValueOf(e, ConfirmPassword);
    assert ValueOf(d, AcceptTerms) == ValueOf(e, AcceptTerms);
  }

  /** `{...prev, [name]: value}`: the named field takes the new value and every other field
      keeps its old one. */
  function Update(d: FormData, name: Field, value: InputValue): (r: FormData)
    requires Fits(name, value)
    ensures ValueOf(r, name) == value
    ensures forall f :: f != name ==> ValueOf(r, f) == ValueOf(d, f)
  {
    match name
    case FullName => d.(fullName := value.text)
    case Email => d.(email := value.text)
    case Password => d.(password := value.text)
    case ConfirmPassword => d.(confirmPassword := value.text)
    case AcceptTerms => d.(acceptTerms := value.checked)
  }

  // ---------------------------------------------------------------------------
  // Field errors
  // ---------------------------------------------------------------------------

  /** Per-field error messages; an absent key and `""` both mean "no error". */
  type Errors = map<Field, string>

  /** `errors[name]`, with an absent key read as `""`. */
  function ErrorOf(errors: Errors, name: Field): string {
    if name in errors then errors[name] else ""
  }

  predicate NoErrors(errors: Errors) {
    forall f :: ErrorOf(errors, f) == ""
  }

  /** For a record holding all five keys, "no errors" is "each of the five entries is `""`"
      (the `Object.values(newErrors).some(...)` test). */
  lemma NoErrorsOfFullRecord(e: Errors)
    requires FullName in e && Email in e && Password in e && ConfirmPassword in e && AcceptTerms in e
    ensures NoErrors(e) <==>
              e[FullName] == "" && e[Email] == "" && e[Password] == ""
              && e[ConfirmPassword] == "" && e[AcceptTerms] == ""
  {
    if e[FullName] == "" && e[Email] == "" && e[Password] == ""
       && e[ConfirmPassword] == "" && e[AcceptTerms] == ""
    {
      forall f ensures ErrorOf(e, f) == "" {
        match f
        case FullName =>
        case Email =>
        case Password =>
        case ConfirmPassword =>
        case AcceptTerms =>
      }
    }
    if NoErrors(e) {
      assert ErrorOf(e, FullName) == "" && ErrorOf(e, Email) == "" && ErrorOf(e, Password) == "";
      assert ErrorOf(e, ConfirmPassword) == "" && ErrorOf(e, AcceptTerms) == "";
    }
  }

  /** The `newErrors` record that `validateForm` builds: every one of the five keys, each
      holding its validator's verdict on the current values. */
  function FieldErrors(d: FormData): (e: Errors)
    ensures FullName in e && Email in e && Password in e && ConfirmPassword in e && AcceptTerms in e
    ensures e[FullName] == ValidateName(d.fullName)
    ensures e[Email] == ValidateEmail(d.email)
    ensures e[Password] == ValidatePassword(d.password)
    ensures e[ConfirmPassword] == ValidatePasswordMatch(d.password, d.confirmPassword)
    ensures e[AcceptTerms] == ValidateTerms(d.acceptTerms)
  {
    map[
      FullName := ValidateName(d.fullName),
      Email := ValidateEmail(d.email),
      Password := ValidatePassword(d.password),
      ConfirmPassword := ValidatePasswordMatch(d.password, d.confirmPassword),
      AcceptTerms := ValidateTerms(d.acceptTerms)]
  }

  /** What a submittable form is, stated without the validators: a name with two
      non-whitespace characters made only of letters and whitespace, an email matching the
      email expression, a password of 8 characters with an uppercase letter, a lowercase
      letter and a digit, an identical confirmation, and the terms accepted. */
  ghost predicate Acceptable(d: FormData) {
    && HasTwoNonWhitespace(d.fullName)
    && AllNameChars(d.fullName)
    && d.email != "" && MatchesEmailRegex(d.email)
    && |d.password| >= MinPasswordLength
    && HasUpper(d.password) && HasLower(d.password) && HasDigit(d.password)
    && d.confirmPassword == d.password
    && d.acceptTerms
  }

  /** `validateForm` reports "no errors" exactly for the acceptable forms. */
  lemma FieldErrorsClearIff(d: FormData)
    ensures NoErrors(FieldErrors(d)) <==> Acceptable(d)
  {
    NoErrorsOfFullRecord(FieldErrors(d));
    NameVerdict(d.fullName);
    EmailVerdict(d.email);
    PasswordVerdict(d.password);
    PasswordMatchVerdict(d.password, d.confirmPassword);
  }

  // ---------------------------------------------------------------------------
  // The gateway
  // ---------------------------------------------------------------------------

  /** The account record the gateway creates. */
  datatype User = User(id: string, name: string, email: string, createdAt: string)

  /** What `handleSubmit` sends: the name, the email and the password, nothing else. */
  datatype SignUpRequest = SignUpRequest(fullName: string, email: string, password: string)

  /** How the gateway's promise settles: resolved with the created user, or rejected with a
      payload whose `error` text may be missing. */
  datatype GatewayOutcome = Ok(user: User) | Err(error: Option<string>)

  const UnexpectedError := "An unexpected error occurred. Please try again."

  /** `error.error || "An unexpected error occurred. Please try again."`. */
  function RejectionMessage(error: Option<string>): (r: string)
    ensures r != ""
    ensures error.Some? && error.value != "" ==> r == error.value
    ensures error.None? || error.value == "" ==> r == UnexpectedError
  {
    match error
    case Some(text) => if text != "" then text else UnexpectedError
    case None => UnexpectedError
  }

  /** Which view the component renders. */
  datatype Screen = EditingScreen | SuccessScreen(user: User)

  // ---------------------------------------------------------------------------
  // The component's state
  // ---------------------------------------------------------------------------

  class SignUpForm {
    var formData: FormData
    var errors: Errors
    var isSubmitting: bool
    var submitError: string
    var successData: Option<User>

    /** While a request is in flight no field error is shown and no account is held, and
        an account is only ever held with every field error clear. */
    ghost predicate Valid()
      reads this
    {
      && (isSubmitting ==> NoErrors(errors) && successData == None)
      && (successData.Some? ==> NoErrors(errors))
    }

    /** The state the component starts in. */
    ghost predicate IsInitial()
      reads this
    {
      && formData == EmptyForm
      && errors == map[]
      && !isSubmitting
      && submitError == ""
      && successData == None
    }

    /** The five `useState` initialisers. */
    constructor ()
      ensures Valid() && IsInitial()
    {
      formData := EmptyForm;
      errors := map[];
      isSubmitting := false;
      submitError := "";
      successData := None;
    }

    /** The view switch: the success screen shows exactly when an account is held. */
    function CurrentScreen(): (s: Screen)
      reads this
      ensures s.SuccessScreen? <==> successData.Some?
      ensures s.SuccessScreen? ==> successData == Some(s.user)
    {
      match successData
      case Some(user) => SuccessScreen(user)
      case None => EditingScreen
    }

    /** `handleInputChange`: store the value, clear that field's error if one is shown, and
        clear the submission-level error. */
    method HandleInputChange(name: Field, value: InputValue)
      requires Valid() && Fits(name, value)
      modifies this
      ensures Valid()
      ensures ValueOf(formData, name) == value
      ensures forall f :: f != name ==> ValueOf(formData, f) == ValueOf(old(formData), f)
      ensures ErrorOf(errors, name) == ""
      ensures errors == if ErrorOf(old(errors), name) != "" then old(errors)[name := ""] else old(errors)
      ensures errors.Keys == old(errors).Keys
      ensures forall f :: f != name ==> ErrorOf(errors, f) == ErrorOf(old(errors), f)
      ensures submitError == ""
      ensures isSubmitting == old(isSubmitting) && successData == old(successData)
    {
      formData := Update(formData, name, value);
      if ErrorOf(errors, name) != "" {
        errors := errors[name := ""];
      }
      if submitError != "" {
        submitError := "";
      }
    }

    /** `validateForm`: replace the errors by the full record of validator verdicts and
        report whether every verdict is `""`. Only `handleSubmit` calls it, and only from
        the editing screen with the submit button enabled. */
    method ValidateForm() returns (valid: bool)
      requires Valid() && !isSubmitting && successData == None
      modifies this
      ensures Valid()
      ensures errors == FieldErrors(formData)
      ensures valid <==> NoErrors(errors)
      ensures old(errors) == FieldErrors(old(formData)) ==> errors == old(errors)
      ensures formData == old(formData) && isSubmitting == old(isSubmitting)
      ensures submitError == old(submitError) && successData == old(successData)
    {
      var newErrors := FieldErrors(formData);
      errors := newErrors;
      valid := true;
      if newErrors[FullName] != "" || newErrors[Email] != "" || newErrors[Password] != ""
         || newErrors[ConfirmPassword] != "" || newErrors[AcceptTerms] != ""
      {
        valid := false;
      }
      NoErrorsOfFullRecord(newErrors);
    }

    /** `handleSubmit` up to the gateway call. An invalid form only stores its errors and
        sends nothing; a valid one raises the in-flight flag, clears the submission error
        and yields the request for the gateway. The submit button is disabled while a
        request is in flight and is not rendered on the success screen. */
    method BeginSubmit() returns (request: Option<SignUpRequest>)
      requires Valid() && !isSubmitting && successData == None
      modifies this
      ensures Valid()
      ensures formData == old(formData) && errors == FieldErrors(formData)
      ensures request.Some? <==> NoErrors(errors)
      ensures request.Some? <==> Acceptable(formData)
      ensures request.None? ==>
                isSubmitting == old(isSubmitting) && submitError == old(submitError)
                && successData == old(successData)
      ensures request.Some? ==>
                isSubmitting && submitError == "" && successData == old(successData)
                && request.value == SignUpRequest(formData.fullName, formData.email, formData.password)
    {
      var valid := ValidateForm();
      FieldErrorsClearIff(formData);
      if !valid {
        return None;
      }
      isSubmitting := true;
      submitError := "";
      request := Some(SignUpRequest(formData.fullName, formData.email, formData.password));
    }

    /** `handleSubmit` after the gateway settles: hold the returned account, or show the
        rejection's text (or the generic message); in both cases lower the in-flight flag. */
    method CompleteSubmit(outcome: GatewayOutcome)
      requires Valid() && isSubmitting
      modifies this
      ensures Valid() && !isSubmitting
      ensures formData == old(formData) && errors == old(errors)
      ensures outcome.Ok? ==>
                successData == Some(outcome.user) && submitError == old(submitError)
                && CurrentScreen() == SuccessScreen(outcome.user) && NoErrors(errors)
      ensures outcome.Err? ==>
                successData == old(successData) && submitError == RejectionMessage(outcome.error)
                && CurrentScreen() == EditingScreen
    {
      match outcome {
        case Ok(user) =>
          successData := Some(user);
        case Err(error) =>
          submitError := RejectionMessage(error);
      }
      isSubmitting := false;
    }

    /** The error banner's close button: clear the submission-level error only. */
    method DismissSubmitError()
      requires Valid()
      modifies this
      ensures Valid()
      ensures submitError == ""
      ensures formData == old(formData) && errors == old(errors)
      ensures isSubmitting == old(isSubmitting) && successData == old(successData)
    {
      submitError := "";
    }

    /** `handleStartOver`: empty values, no errors, no submission error and no account. The
        in-flight flag is not touched, so the state is the initial one when no request is in
        flight. */
    method HandleStartOver()
      requires Valid()
      modifies this
      ensures Valid()
      ensures formData == EmptyForm && errors == map[]
      ensures submitError == "" && successData == None
      ensures isSubmitting == old(isSubmitting)
      ensures !old(isSubmitting) ==> IsInitial()
    {
      formData := EmptyForm;
      errors := map[];
      submitError := "";
      successData := None;
    }
  }

  // ---------------------------------------------------------------------------
  // A whole sign-up
  // ---------------------------------------------------------------------------

  const SampleForm := FormData("Jane Doe", "jane@example.com", "Secret123", "Secret123", true)

  lemma SampleEmailHasNoWhitespace(email: string)
    requires email == SampleForm.email
    ensures NoWhitespace(email)
  {
    assert forall k :: 0 <= k < 16 ==> !IsWhitespace(email[k]);
  }

  lemma SampleEmailAt(email: string)
    requires email == SampleForm.email
    ensures IndexOf(email, '@') == 4 && NoAtFrom(email, 5)
  {
    assert email[4] == '@' && forall k :: 0 <= k < 4 ==> email[k] != '@';
    assert forall k :: 5 <= k < 16 ==> email[k] != '@';
  }

  lemma SampleEmailIsValid(email: string)
    requires email == SampleForm.email
    ensures ValidateEmail(email) == ""
  {
    SampleEmailHasNoWhitespace(email);
    SampleEmailAt(email);
    assert email[12] == '.';
  }

  lemma SamplePasswordIsValid()
    ensures ValidatePassword(SampleForm.password) == ""
  {
    var password := SampleForm.password;
    assert IsUpper(password[0]) && IsLower(password[1]) && IsDigit(password[6]);
  }

  /** The sample sign-up passes every validator. */
  lemma SampleFormIsAcceptable()
    ensures NoErrors(FieldErrors(SampleForm))
  {
    NameExampleFull();
    SampleEmailIsValid(SampleForm.email);
    SamplePasswordIsValid();
    NoErrorsOfFullRecord(FieldErrors(SampleForm));
  }

  /** Fill in the sample values, submit, let the gateway succeed, then start over: the
      gateway receives exactly the name, email and password, the success screen shows the
      returned account, and starting over restores the initial state. */
  method SignUpOnce(user: User)
  {
    var form := new SignUpForm();
    form.HandleInputChange(FullName, Text(SampleForm.fullName));
    form.HandleInputChange(Email, Text(SampleForm.email));
    form.HandleInputChange(Password, Text(SampleForm.password));
    form.HandleInputChange(ConfirmPassword, Text(SampleForm.confirmPassword));
    form.HandleInputChange(AcceptTerms, Checked(SampleForm.acceptTerms));
    SameValuesSameForm(form.formData, SampleForm);
    SampleFormIsAcceptable();
    var request := form.BeginSubmit();
    assert request == Some(SignUpRequest("Jane Doe", "jane@example.com", "Secret123"));
    form.CompleteSubmit(Ok(user));
    assert form.CurrentScreen() == SuccessScreen(user);
    assert !form.isSubmitting;
    form.HandleStartOver();
    assert form.IsInitial();
  }
}
