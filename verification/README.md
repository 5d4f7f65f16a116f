# Form validation rules of the jQuery sign-up form, in Dafny

The application is a single web form (name, email, phone, password) wired up
with jQuery in `script.js`. Two pieces of it carry logic, and this project
models both as pure functions over strings (`string` = `seq<char>`) and proves
what they do:

- the **phone input filter**: on every `input` event the phone field's value is
  rewritten with every character outside `0`-`9` deleted;
- the **submit handler**: each field's value is read (name, email and phone
  trimmed, the password not), checked by an `if`/`else if` chain that reports at
  most one message, and the form is valid iff no field reported one. The
  verdict selects the banner text "Form submitted successfully!" or "Please fix
  the errors above".

Modules:

- `JsText` (`jstext.dfy`): the JavaScript string semantics the handlers use.
  `Trim` removes exactly the ECMAScript WhiteSpace and LineTerminator code
  points from both ends. `JsLength` counts UTF-16 code units, as `.length`
  does, so a character outside the Basic Multilingual Plane counts twice. The
  character classes `[0-9]`, `[A-Z]` and `[a-z]` are here too. `ClassTest`
  models the tests `/[A-Z]/.test(...)` and the like as a left-to-right scan.
- `PhoneInput` (`phone_input.dfy`): `KeepDigits` is the reference definition of
  the filter. `FilterDigits` is the left-to-right rewrite, proved equal to it.
  The lemmas state that the filter keeps exactly the digits, in order, and is
  idempotent.
- `EmailPattern` (`email_pattern.dfy`): the pattern
  `^[a-zA-Z0-9._-]+@[a-zA-Z0-9.-]+\.[a-zA-Z]{2,6}$`. `Pattern` states it as the
  existence of a split into local part, `@`, domain body, `.` and top-level
  domain. `Matches` is a matcher without backtracking that cuts at the first
  `@` and at the last `.`. They are proved to agree on every string.
- `FieldRules` (`field_rules.dfy`): a rule set as data. It is an ordered list
  of checks with messages, evaluated first-failure-wins by `FirstFailure`.
- `FormValidation` (`form_validation.dfy`): the four field validators with the
  source's exact messages. The name, email and phone checks take the trimmed
  value and the password check takes the raw value. Each of these checks is
  proved equal to its rule list. `Submit`
  gives the per-field results, the verdict and the banner. The verdict is
  computed as the source's running `isValid` flag (`ClearOnError`).

## Model

| member | source | states |
|---|---|---|
| JsText.Trim | script.js:28 | the trimmed value is no longer than the input and neither starts nor ends with JavaScript whitespace |
| JsText.TrimIsSlice | script.js:28 | the trimmed value is a contiguous slice of the input and everything outside the slice is whitespace |
| JsText.TrimEmptyIff | script.js:29 | a value trims to the empty string exactly when every character of it is whitespace |
| JsText.WhitespaceIsNarrowNonAlnum | script.js:28 | no character that `trim` removes is a digit or an ASCII letter, and each is a single UTF-16 code unit |
| JsText.ClassTest | script.js:54-56 | `/[A-Z]/.test`, `/[a-z]/.test` and `/[0-9]/.test`, scanned left to right, succeed iff some character of the value is in the class |
| JsText.TrimNoEdgeWhitespace | script.js:28 | a value that neither starts nor ends with whitespace is unchanged by trimming |
| JsText.TrimAllDigits | script.js:44 | a value made only of digits is unchanged by trimming |
| JsText.JsLength | script.js:48 | `.length` lies between the character count and twice it, and equals the character count when no character is outside the Basic Multilingual Plane |
| PhoneInput.KeepDigits | script.js:17 | the filtered value holds only `0`-`9` and is no longer than the input |
| PhoneInput.FilterDigits | script.js:17 | the character-by-character rewrite of the input handler yields exactly the reference filter's output, which is all digits |
| PhoneInput.KeepDigitsAppend | script.js:17 | filtering distributes over concatenation, so the output is the input's digits in their original order |
| PhoneInput.KeepDigitsSingle | script.js:17 | a single character survives the filter iff it is a digit |
| PhoneInput.KeepDigitsOfDigits | script.js:17 | an all-digit value passes through the filter unchanged |
| PhoneInput.KeepDigitsIdempotent | script.js:17 | filtering an already filtered value changes nothing |
| PhoneInput.KeepDigitsCounts | script.js:17 | every digit occurs in the output as often as in the input, and no other character occurs at all |
| PhoneInput.FilteredIsTrimmedAndShort | script.js:17 | a filtered value is left alone by `trim`, and its `.length` is its character count |
| PhoneInput.FilterExample | script.js:17 | typing `12a3-4` leaves `1234` in the field |
| EmailPattern.Pattern | script.js:35 | the regex as the existence of a split into a local part over `[a-zA-Z0-9._-]`, `@`, a domain body over `[a-zA-Z0-9.-]`, `.`, and 2 to 6 ASCII letters to the end; any match is at least 6 long, does not start with `@` and ends with a letter |
| EmailPattern.Matches | script.js:35 | the matcher that cuts at the first `@` and at the last `.` after it accepts a string iff the regex matches it |
| EmailPattern.PatternCutsAtFirstAtLastDot | script.js:35 | the regex matches iff the split at the first `@` and the last `.` after it fits |
| EmailPattern.SplitIsFirstAtLastDot | script.js:35 | in any way the pattern splits an address, the `@` is the first one and the `.` is the last one after it |
| EmailPattern.MatchesIffPattern | script.js:35 | the first-`@`/last-`.` matcher accepts exactly the strings the pattern matches, in both directions |
| EmailPattern.PatternHasOneAt | script.js:35 | a matched address contains exactly one `@` |
| EmailPattern.PatternRejectsTwoAts | script.js:35 | no string with two `@` characters matches |
| EmailPattern.PatternAcceptsPlainAddress | script.js:35 | `user@example.com` matches |
| EmailPattern.PatternRejectsDoubleAt | script.js:35 | `user@@example.com` does not match |
| EmailPattern.PatternRejectsShortTld | script.js:35 | `a@b.c` does not match, because the top-level domain has fewer than 2 letters |
| FieldRules.FirstFailure | script.js:58-73 | an ordered rule list yields no error iff every check holds; otherwise it yields the message of a failing check that every earlier check passed |
| FieldRules.FirstFailureAt | script.js:58-73 | when check k fails and all checks before it hold, the message of check k is the one reported |
| FormValidation.CheckName | script.js:29-32 | the trimmed name yields either no error or "Name is required", and the error exactly when it is empty |
| FormValidation.CheckEmail | script.js:36-42 | the trimmed email yields "Email is required" iff it is empty, no error iff the email pattern matches it, and otherwise "Please enter valid email format" |
| FormValidation.CheckPhone | script.js:45-51 | the trimmed phone yields "Phone number is required" iff it is empty, no error iff its `.length` is 10, and otherwise "Phone number must be 10 digits"; its characters are not examined |
| FormValidation.ValidateName | script.js:28-32 | the name field reports "Name is required" iff its raw value is all whitespace (including empty), and nothing otherwise |
| FormValidation.ValidateEmail | script.js:34-42 | the email field reports "Email is required" iff its raw value is all whitespace, "Please enter valid email format" iff it is not but its trimmed value does not match the pattern, and no error iff the trimmed value matches |
| FormValidation.ValidatePhone | script.js:44-51 | the phone field reports "Phone number is required" iff its raw value is all whitespace, the length message iff it is not but the trimmed `.length` is not 10, and no error iff the trimmed `.length` is 10 |
| FormValidation.ValidatePassword | script.js:53-73 | on the untrimmed value, the password is valid iff `.length` ≥ 8 and it has an uppercase letter, a lowercase letter and a digit; each of the five messages is reported exactly when its check is the first to fail in the order empty, shorter than 8, no uppercase, no lowercase, no digit |
| FormValidation.NameIsRuleList | script.js:29-32 | the name check on the trimmed value is the one-rule list "required", run first-failure-wins |
| FormValidation.EmailIsRuleList | script.js:36-42 | the email check on the trimmed value is the rule list "required, then pattern", run first-failure-wins |
| FormValidation.PhoneIsRuleList | script.js:45-51 | the phone check on the trimmed value is the rule list "required, then length 10", run first-failure-wins |
| FormValidation.PasswordIsRuleList | script.js:58-73 | the password cascade on the raw value is the five-rule list "required, length ≥ 8, uppercase, lowercase, digit", run first-failure-wins |
| FormValidation.ClearOnError | script.js:23-73 | the `isValid` flag, started as given and cleared by each field that reports an error, ends true iff it started true and no result is an error |
| FormValidation.ClearOnErrorOfFour | script.js:23-75 | for the handler's four fields, the flag ends true iff all four results are free of errors |
| FormValidation.Submit | script.js:23-84 | each field's result is its own validator applied to its own value alone, the verdict holds iff all four results are error-free, and the banner is the success text iff the verdict holds |
| FormValidation.SubmitValidIff | script.js:28-84 | the form is valid iff the name is not all whitespace, the trimmed email matches the pattern, the trimmed phone has `.length` 10, and the password has `.length` ≥ 8 with an uppercase letter, a lowercase letter and a digit |
| FormValidation.FilteredPhoneVerdict | script.js:44-51 | a phone value that went through the input filter is valid iff it kept exactly 10 digits, and is reported missing iff it kept none |
| FormValidation.PasswordTooShortExample | script.js:61-63 | `short1A` is reported too short although it has an uppercase letter, a lowercase letter and a digit |
| FormValidation.PasswordNoUpperExample | script.js:64-66 | `alllowercase1` is reported as lacking an uppercase letter |
| FormValidation.PasswordNoLowerExample | script.js:67-69 | `ALLUPPER1` is reported as lacking a lowercase letter |
| FormValidation.PasswordValidExample | script.js:53-73 | `GoodPass1` passes the password cascade |

## Left out

- The password visibility toggle (script.js:3-14): it only flips the field's `type` attribute and the button's emoji text.
- DOM plumbing in the submit handler (script.js:21, 25-26, and the `.text`/`.addClass`/`.show` calls): the model returns the messages and the banner text instead of writing them into the page.
- The delayed reset after a successful submit (script.js:78-81): it is a timer callback that clears the form through the DOM. It is not cancelled when the user types again, so a stale reset can wipe fresh input. The model has no clock.
- Event sequencing for the phone filter: the filter runs only on `input` events, so a value set by script or by autofill can reach the submit handler unfiltered. The model therefore keeps `PhoneInput.KeepDigits` and `FormValidation.ValidatePhone` separate and relates them in `FormValidation.FilteredPhoneVerdict`.
- The general regular-expression engine: only the one email pattern and the three single-class tests used here are modelled.
- The submit handler checks only the trimmed `.length` of the phone, not whether its characters are digits (script.js:48). The password length is taken on the untrimmed value (script.js:53, 61). The model does the same.
- Lengths: JavaScript strings are UTF-16. The model counts `.length` in UTF-16 code units (`JsText.JsLength`) but keeps characters as Unicode scalar values. A lone surrogate cannot occur in a Dafny string, so the model cannot represent one.
