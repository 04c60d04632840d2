# Sign-up form: validators and form state machine

A Dafny model of the logic of a client-side sign-up form: the five field validators
(`utils/validation.js`) and the state machine of the form component
(`components/SignUpForm.js`, without its markup).

- `validation.dfy`, module `Validation`: the validators are pure functions over
  `string` (`seq<char>`). The regular expressions are written out as predicates:
  - `[a-zA-Z\s]` is `IsNameChar`.
  - `[^\s@]` is `IsEmailChar`.
  - `/[A-Z]/` and its siblings are `HasUpper`, `HasLower` and `HasDigit`.
  - The full email expression `^[^\s@]+@[^\s@]+\.[^\s@]+$` is `MatchesEmailRegex`: an `@`
    and a `.` cut the string into three non-empty runs of `[^\s@]`.
  - The validator itself checks `EmailShape`: no whitespace, one `@` with a non-empty local
    part, and a `.` inside the domain with text on both sides. `EmailShapeMatchesRegex`
    proves both predicates agree on every string.
  - `trim()` is `Trim`: the slice between `SkipWhitespace` from the front and
    `SkipWhitespaceBack` from the end.
  - Lemmas say exactly when each validator returns `""` and which message wins when
    several rules fail.
- `form.dfy`, module `Form`: the component's five state cells are the fields of class
  `SignUpForm`: `formData`, `errors`, `isSubmitting`, `submitError` and `successData`. Each
  handler is a method:
  - `HandleInputChange` is `handleInputChange`.
  - `ValidateForm` is `validateForm`.
  - `BeginSubmit` and `CompleteSubmit` are `handleSubmit`, split at the gateway call.
  - `DismissSubmitError` is the error banner's close callback.
  - `HandleStartOver` is `handleStartOver`.

  The record of errors is a `map<Field, string>`, where an absent key and `""` both mean
  "no error". The gateway (the mock backend) is not modelled. Its settled promise is the
  input `GatewayOutcome = Ok(user) | Err(Option<string>)` of `CompleteSubmit`.
  - The object invariant `Valid()` says that no field error is shown while a request is in
    flight. It also says that an account is only ever held while every field error is clear.
  - `Acceptable` states, without the validators, what a submittable form is.
    `FieldErrorsClearIff` proves that `validateForm` reports success exactly for such forms.
  - `SignUpOnce` is a small client of the class: fill in the sample values, submit, succeed,
    start over. The contracts alone are enough to conclude three things. The gateway gets
    exactly name, email and password. The success screen shows the returned account.
    Starting over gives back the initial state.
- `wrappers.dfy`, module `Wrappers`: the `Option` type.

The model keeps these details of the code:
- `handleStartOver` resets `errors` to the empty record `{}`, not to five empty entries.
- `handleStartOver` does not touch `isSubmitting`, so the state equals the initial one only
  when no request is in flight (`HandleStartOver`'s last `ensures`).
- `handleSubmit` does not itself check `isSubmitting`. The submit button is disabled while a
  request is in flight (components/SignUpForm.js:225). The form with its button is not
  rendered at all while an account is held (line 128). Both are preconditions of
  `BeginSubmit` (and of `ValidateForm`, which only `handleSubmit` calls).
- `CompleteSubmit` requires `isSubmitting`: it is the continuation of a `BeginSubmit` that
  sent a request.
- `handleInputChange` receives `checked` for the checkbox and `value` for every other input.
  Only the `acceptTerms` input is a checkbox, so `HandleInputChange` takes an `InputValue`
  that fits the field (`Fits`).

## Model

| member | source | states |
|---|---|---|
| Validation.SkipWhitespace | utils/validation.js:9 | the first index at or after `i` that is not whitespace: everything skipped is whitespace and the index it stops at is not |
| Validation.SkipWhitespaceBack | utils/validation.js:9 | walking back from `j` to `lo`, everything skipped is whitespace and the character before the stopping point is not |
| Validation.LeadingWhitespace | utils/validation.js:9 | the number of leading characters `trim()` drops: all of them are whitespace and the next character, if any, is not |
| Validation.Trim | utils/validation.js:9 | `trim()` is the slice of the input from its first to its last non-whitespace character; everything outside it is whitespace |
| Validation.TrimmedAtLeastTwo | utils/validation.js:9 | the trimmed length is at least 2 iff the untrimmed string has two characters that are not whitespace |
| Validation.ValidateName | utils/validation.js:8-16 | the result is `""` or one of the two name messages |
| Validation.NameVerdict | utils/validation.js:8-16 | the length message comes back iff the trimmed length is below 2, which holds iff fewer than two characters are not whitespace (this covers `""` and all-whitespace input); otherwise `""` iff every character is an ASCII letter or whitespace, else the letters-and-spaces message |
| Validation.NameExamplesTooShort | utils/validation.js:9-11 | `""` and `"A"` get the length message |
| Validation.NameExampleBlank | utils/validation.js:9-11 | an all-blank name gets the length message |
| Validation.NameExampleShortest | utils/validation.js:8-16 | `"Al"` is valid |
| Validation.NameExampleDigit | utils/validation.js:12-14 | `"Al3x"` gets the letters-and-spaces message |
| Validation.NameExampleFull | utils/validation.js:8-16 | `"Jane Doe"` is valid |
| Validation.IndexOf | utils/validation.js:25 | the index of the first occurrence of a character, or the length when it does not occur |
| Validation.EmailShapeIsRegexMatch | utils/validation.js:25-26 | a string with the direct shape matches the email regular expression |
| Validation.RegexMatchIsEmailShape | utils/validation.js:25-26 | a string the email regular expression matches has the direct shape: the first `@` is the regex's `@`, there is no whitespace and no second `@` |
| Validation.EmailShapeMatchesRegex | utils/validation.js:25-26 | the direct shape check (no whitespace, one `@`, non-empty local part, a `.` inside the domain with text on both sides) holds iff the email regular expression matches |
| Validation.ValidateEmail | utils/validation.js:21-30 | the result is `""` or one of the two email messages |
| Validation.EmailVerdict | utils/validation.js:21-30 | `""` gets "Email is required"; a non-empty email gets `""` iff it matches the email regular expression, and the format message otherwise |
| Validation.EmailExamplesInvalid | utils/validation.js:21-30 | `""` is required; `"a@b"` (no dot) and `"a b@c.d"` (whitespace) are invalid |
| Validation.EmailExampleValid | utils/validation.js:25-29 | `"a@b.com"` is valid |
| Validation.ValidatePassword | utils/validation.js:36-53 | the result is `""` or one of the five password messages |
| Validation.PasswordVerdict | utils/validation.js:36-53 | the rules are checked in order (empty, length < 8, no `A-Z`, no `a-z`, no `0-9`) and each message comes back iff every earlier rule passes and its own fails; `""` iff length >= 8 with an uppercase letter, a lowercase letter and a digit |
| Validation.PasswordExamplesEarlyRules | utils/validation.js:37-42 | `""` is required; `"short1A"` gets the length message although it has an uppercase letter, a lowercase letter and a digit |
| Validation.PasswordExampleNoUpper | utils/validation.js:43-45 | `"longenough"` gets the uppercase message |
| Validation.PasswordExampleNoLower | utils/validation.js:46-48 | `"LONGENOUGH"` gets the lowercase message |
| Validation.PasswordExampleNoDigit | utils/validation.js:49-51 | `"LongEnough"` gets the digit message |
| Validation.PasswordExampleValid | utils/validation.js:36-53 | `"LongEnough1"` is valid |
| Validation.ValidatePasswordMatch | utils/validation.js:58-66 | the result is `""` or one of the two confirmation messages |
| Validation.PasswordMatchVerdict | utils/validation.js:58-66 | the confirmation message comes back iff the confirmation is empty, whatever the password; otherwise the mismatch message iff the strings differ; `""` iff the confirmation is non-empty and equal to the password |
| Validation.ValidateTerms | utils/validation.js:71-76 | `""` iff the terms are accepted, the terms message otherwise |
| Validation.MatchAndTermsExamples | utils/validation.js:58-76 | `("x","y")` mismatch, `("x","x")` valid, `("x","")` needs confirming; terms false is an error, true is valid |
| Form.ValueOf | components/SignUpForm.js:19-25 | reading a field gives text for the four text fields and a checkbox state for `acceptTerms` |
| Form.SameValuesSameForm | components/SignUpForm.js:19-25 | two value records that agree on all five fields are equal |
| Form.Update | components/SignUpForm.js:39-42 | `{...prev, [name]: value}` sets the named field to the value and leaves every other field as it was |
| Form.NoErrorsOfFullRecord | components/SignUpForm.js:76 | for a record with all five keys, "no entry is non-empty" is the same as "each of the five entries is `""`" |
| Form.FieldErrors | components/SignUpForm.js:62-71 | the new error record has all five keys, each holding its validator's verdict on the current values |
| Form.FieldErrorsClearIff | components/SignUpForm.js:61-77 | every entry of the new record is `""` iff the form is acceptable: a name with two non-whitespace characters and only letters and whitespace, an email matching the regular expression, a strong password, an identical confirmation and accepted terms |
| Form.RejectionMessage | components/SignUpForm.js:103-105 | the banner text after a rejection is never empty: the rejection's `error` text when present and non-empty, the generic message otherwise |
| Form.SignUpForm.constructor | components/SignUpForm.js:19-30 | the initial state: empty text fields, terms unchecked, no errors, not submitting, no submission error, no account |
| Form.SignUpForm.CurrentScreen | components/SignUpForm.js:128-132 | the success screen shows iff an account is held, and it shows that account |
| Form.SignUpForm.HandleInputChange | components/SignUpForm.js:35-56 | only the named field changes, to the new value; that field's error is cleared if it was non-empty and no other error entry or key changes; the submission error is cleared; flag and account unchanged |
| Form.SignUpForm.ValidateForm | components/SignUpForm.js:61-77 | the errors become the full validator record; the result is true iff every entry is `""`; running it again on unchanged values leaves the errors as they are; nothing else changes |
| Form.SignUpForm.BeginSubmit | components/SignUpForm.js:82-97 | the errors are recomputed; a request is sent iff every entry is `""`, iff the form is acceptable; an invalid form sends nothing and leaves values, flag, submission error and account unchanged; a valid form raises the flag, clears the submission error and sends exactly name, email and password from the current values |
| Form.SignUpForm.CompleteSubmit | components/SignUpForm.js:98-108 | on success the account is exactly the returned user, the success screen shows it and every field error is clear; on failure the submission error is the rejection message; values and errors unchanged and the flag lowered on both paths |
| Form.SignUpForm.DismissSubmitError | components/SignUpForm.js:216-221 | clears the submission error and nothing else |
| Form.SignUpForm.HandleStartOver | components/SignUpForm.js:114-125 | empty values, no errors, no submission error, no account, flag untouched; from a state with no request in flight this is the initial state |
| Form.SampleEmailIsValid | utils/validation.js:21-30 | `"jane@example.com"` is a valid email |
| Form.SamplePasswordIsValid | utils/validation.js:36-53 | `"Secret123"` is a valid password |
| Form.SampleFormIsAcceptable | components/SignUpForm.js:61-77 | the sample values (Jane Doe, jane@example.com, Secret123 twice, terms accepted) validate with every entry `""` |

## Left out

- All markup, styling and icons. `components/FormInput.js` (the show/hide-password toggle),
  `components/SuccessScreen.js` (display and date formatting), `components/ErrorMessage.js`
  and `pages/index.js` are presentation only and are not part of this model.
- `utils/mockApi.js`: its random success, random id, timestamp and delay are replaced by the
  `GatewayOutcome` input of `CompleteSubmit`. The account's fields are opaque strings.
- Asynchrony: each handler is one sequential step, with the gateway call as the split point.
  React's batched and stale-closure `setState` behaviour is not modelled.
  `e.preventDefault()` is event plumbing.
- Strings are sequences of Dafny `char`, not UTF-16 code units, so lengths can differ from
  JavaScript's for characters outside the Basic Multilingual Plane.
- Whitespace: one fixed ASCII whitespace set (space, tab, line feed, vertical tab,
  form feed, carriage return) stands for both `trim()` and `\s`. The model does not capture
  JavaScript's full Unicode whitespace (for instance U+00A0 or U+2028).
- JavaScript's `!value` on non-strings (`undefined`, `null`) is not modelled. Every value is a
  string or, for the terms box, a boolean.
