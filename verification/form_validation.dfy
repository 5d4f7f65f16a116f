/** The validation body of the `#myForm` submit handler, without its DOM
    side effects: one function per field from the raw field value to a
    `FieldResult`, and `Submit`, which combines them into the report the
    handler renders (per-field messages, the `isValid` verdict and the banner
    text). */
module FormValidation {
  import opened JsText
  import opened FieldRules
  import EmailPattern
  import PhoneInput

  const NameRequired := "Name is required"
  const EmailRequired := "Email is required"
  const EmailInvalid := "Please enter valid email format"
  const PhoneRequired := "Phone number is required"
  const PhoneLength := "Phone number must be 10 digits"
  const PasswordRequired := "Password is required"
  const PasswordTooShort := "Password must be at least 8 characters"
  const PasswordNoUpper := "Password must contain uppercase letter"
  const PasswordNoLower := "Password must contain lowercase letter"
  const PasswordNoNumber := "Password must contain a number"
  const SuccessBanner := "Form submitted successfully!"
  const FailureBanner := "Please fix the errors above"

  /** Name, on the trimmed value: required. */
  function CheckName(name: string): (r: FieldResult)
    ensures r == Ok || r == Err(NameRequired)
    ensures r == Ok <==> name != []
  {
    if name == [] then Err(NameRequired) else Ok
  }

  /** Email, on the trimmed value: required, then it must match the email
      pattern. */
  function CheckEmail(email: string): (r: FieldResult)
    ensures r == Ok || r == Err(EmailRequired) || r == Err(EmailInvalid)
    ensures r == Err(EmailRequired) <==> email == []
    ensures r == Ok <==> EmailPattern.Pattern(email)
  {
    EmailPattern.MatchesIffPattern(email);
    if email == [] then Err(EmailRequired)
    else if !EmailPattern.Matches(email) then Err(EmailInvalid)
    else Ok
  }

  /** Phone, on the trimmed value: required, then it must be exactly 10
      long. Its characters are not examined here. */
  function CheckPhone(phone: string): (r: FieldResult)
    ensures r == Ok || r == Err(PhoneRequired) || r == Err(PhoneLength)
    ensures r == Err(PhoneRequired) <==> phone == []
    ensures r == Ok <==> JsLength(phone) == 10
  {
    JsLengthEmpty(phone);
    if phone == [] then Err(PhoneRequired)
    else if JsLength(phone) != 10 then Err(PhoneLength)
    else Ok
  }

  /** The name field as read from the form: trimmed, then checked. It is
      reported missing exactly when it is all whitespace. */
  function ValidateName(raw: string): (r: FieldResult)
    ensures r == Ok || r == Err(NameRequired)
    ensures r == Err(NameRequired) <==> AllWhitespace(raw)
  {
    TrimEmptyIff(raw);
    CheckName(Trim(raw))
  }

  /** The email field as read from the form: trimmed, then checked. */
  function ValidateEmail(raw: string): (r: FieldResult)
    ensures r == Ok || r == Err(EmailRequired) || r == Err(EmailInvalid)
    ensures r == Err(EmailRequired) <==> AllWhitespace(raw)
    ensures r == Err(EmailInvalid) <==> !AllWhitespace(raw) && !EmailPattern.Pattern(Trim(raw))
    ensures r == Ok <==> EmailPattern.Pattern(Trim(raw))
  {
    TrimEmptyIff(raw);
    CheckEmail(Trim(raw))
  }

  /** The phone field as read from the form: trimmed, then checked. */
  function ValidatePhone(raw: string): (r: FieldResult)
    ensures r == Ok || r == Err(PhoneRequired) || r == Err(PhoneLength)
    ensures r == Err(PhoneRequired) <==> AllWhitespace(raw)
    ensures r == Err(PhoneLength) <==> !AllWhitespace(raw) && JsLength(Trim(raw)) != 10
    ensures r == Ok <==> JsLength(Trim(raw)) == 10
  {
    TrimEmptyIff(raw);
    CheckPhone(Trim(raw))
  }

  /** Password: not trimmed; the first failing check of the cascade
      empty, shorter than 8, no `[A-Z]`, no `[a-z]`, no `[0-9]` decides the
      message. */
  function ValidatePassword(p: string): (r: FieldResult)
    ensures r == Ok <==> JsLength(p) >= 8 && HasUpper(p) && HasLower(p) && HasDigit(p)
    ensures r == Err(PasswordRequired) <==> p == []
    ensures r == Err(PasswordTooShort) <==> p != [] && JsLength(p) < 8
    ensures r == Err(PasswordNoUpper) <==> JsLength(p) >= 8 && !HasUpper(p)
    ensures r == Err(PasswordNoLower) <==> JsLength(p) >= 8 && HasUpper(p) && !HasLower(p)
    ensures r == Err(PasswordNoNumber) <==>
              JsLength(p) >= 8 && HasUpper(p) && HasLower(p) && !HasDigit(p)
  {
    if p == [] then Err(PasswordRequired)
    else if JsLength(p) < 8 then Err(PasswordTooShort)
    else if !HasUpper(p) then Err(PasswordNoUpper)
    else if !HasLower(p) then Err(PasswordNoLower)
    else if !HasDigit(p) then Err(PasswordNoNumber)
    else Ok
  }

  /** The four rule sets as ordered rule lists. */
  const NameRules := [Rule(NotEmpty, NameRequired)]
  const EmailRules := [Rule(NotEmpty, EmailRequired), Rule(EmailFormat, EmailInvalid)]
  const PhoneRules := [Rule(NotEmpty, PhoneRequired), Rule(LengthIs(10), PhoneLength)]
  const PasswordRules := [
    Rule(NotEmpty, PasswordRequired),
    Rule(MinLength(8), PasswordTooShort),
    Rule(HasUppercase, PasswordNoUpper),
    Rule(HasLowercase, PasswordNoLower),
    Rule(HasNumber, PasswordNoNumber)
  ]

  /** Each field check is its rule list run first-failure-wins: name, email
      and phone on the trimmed value, the password on the raw one. */
  lemma NameIsRuleList(name: string)
    ensures CheckName(name) == FirstFailure(NameRules, name)
  {
  }

  lemma EmailIsRuleList(email: string)
    ensures CheckEmail(email) == FirstFailure(EmailRules, email)
  {
  }

  lemma PhoneIsRuleList(phone: string)
    ensures CheckPhone(phone) == FirstFailure(PhoneRules, phone)
  {
  }

  lemma PasswordIsRuleList(p: string)
    ensures ValidatePassword(p) == FirstFailure(PasswordRules, p)
  {
    assert |PasswordRules| == 5 && PasswordRules[0].check == NotEmpty;
    assert PasswordRules[1].check == MinLength(8) && PasswordRules[2].check == HasUppercase;
    assert PasswordRules[3].check == HasLowercase && PasswordRules[4].check == HasNumber;
    if p == [] {
      FirstFailureAt(PasswordRules, p, 0);
    } else if JsLength(p) < 8 {
      FirstFailureAt(PasswordRules, p, 1);
    } else if !HasUpper(p) {
      FirstFailureAt(PasswordRules, p, 2);
    } else if !HasLower(p) {
      FirstFailureAt(PasswordRules, p, 3);
    } else if !HasDigit(p) {
      FirstFailureAt(PasswordRules, p, 4);
    }
  }

  /** The values read from the four fields when the form is submitted. */
  datatype FormValues = FormValues(name: string, email: string, phone: string, password: string)

  /** What the handler renders: one result per field, the verdict and the
      banner text. */
  datatype Report = Report(
    name: FieldResult, email: FieldResult, phone: FieldResult, password: FieldResult,
    valid: bool, banner: string)

  /** The handler's `isValid` flag: it starts as given and is cleared by every
      field that reports an error. */
  function ClearOnError(isValid: bool, results: seq<FieldResult>): (v: bool)
    ensures v <==> isValid && forall i :: 0 <= i < |results| ==> results[i] == Ok
  {
    if results == [] then isValid
    else
      var v := ClearOnError(isValid && results[0] == Ok, results[1..]);
      assert forall i :: 1 <= i < |results| ==> results[i] == results[1..][i - 1];
      v
  }

  lemma ClearOnErrorOfFour(a: FieldResult, b: FieldResult, c: FieldResult, d: FieldResult)
    ensures ClearOnError(true, [a, b, c, d]) <==> a == Ok && b == Ok && c == Ok && d == Ok
  {
    var rs := [a, b, c, d];
    assert rs[0] == a && rs[1] == b && rs[2] == c && rs[3] == d;
  }

  /** The submit handler: each field is judged on its own value alone, the
      verdict holds iff no field reported an error, and it picks the banner. */
  function Submit(f: FormValues): (r: Report)
    ensures r.name == ValidateName(f.name) && r.email == ValidateEmail(f.email)
    ensures r.phone == ValidatePhone(f.phone) && r.password == ValidatePassword(f.password)
    ensures r.valid <==> r.name == Ok && r.email == Ok && r.phone == Ok && r.password == Ok
    ensures r.banner == (if r.valid then SuccessBanner else FailureBanner)
  {
    var name := ValidateName(f.name);
    var email := ValidateEmail(f.email);
    var phone := ValidatePhone(f.phone);
    var password := ValidatePassword(f.password);
    var valid := ClearOnError(true, [name, email, phone, password]);
    ClearOnErrorOfFour(name, email, phone, password);
    Report(name, email, phone, password, valid,
           if valid then SuccessBanner else FailureBanner)
  }

  /** The verdict in terms of the field values alone. */
  lemma SubmitValidIff(f: FormValues)
    ensures Submit(f).valid <==>
              && !AllWhitespace(f.name)
              && EmailPattern.Pattern(Trim(f.email))
              && JsLength(Trim(f.phone)) == 10
              && JsLength(f.password) >= 8
              && HasUpper(f.password) && HasLower(f.password) && HasDigit(f.password)
  {
  }

  /** A phone value that went through the input filter is valid exactly when
      it kept 10 digits, and is reported missing exactly when it kept none. */
  lemma {:induction false} FilteredPhoneVerdict(typed: string)
    ensures ValidatePhone(PhoneInput.KeepDigits(typed)) == Ok <==>
              |PhoneInput.KeepDigits(typed)| == 10
    ensures ValidatePhone(PhoneInput.KeepDigits(typed)) == Err(PhoneRequired) <==>
              PhoneInput.KeepDigits(typed) == []
  {
    var kept := PhoneInput.KeepDigits(typed);
    PhoneInput.FilteredIsTrimmedAndShort(typed);
    TrimEmptyIff(kept);
  }

  /** The password cascade on sample values: a 7-character value fails on
      length although it has every character class, and the class checks
      are reported in the order uppercase, lowercase, number. */
  lemma PasswordTooShortExample()
    ensures ValidatePassword("short1A") == Err(PasswordTooShort)
  {
  }

  lemma PasswordNoUpperExample()
    ensures ValidatePassword("alllowercase1") == Err(PasswordNoUpper)
  {
    var p := "alllowercase1";
    assert !HasUpper(p) by {
      assert forall i :: 0 <= i < |p| ==> 'a' <= p[i] || p[i] == '1';
    }
    assert JsLength(p) >= 8;
  }

  lemma PasswordNoLowerExample()
    ensures ValidatePassword("ALLUPPER1") == Err(PasswordNoLower)
  {
    var p := "ALLUPPER1";
    assert !HasLower(p) by {
      assert forall i :: 0 <= i < |p| ==> p[i] <= 'Z';
    }
    assert IsUpper(p[0]) && JsLength(p) >= 8;
  }

  lemma PasswordValidExample()
    ensures ValidatePassword("GoodPass1") == Ok
  {
    var p := "GoodPass1";
    assert IsUpper(p[0]) && IsLower(p[1]) && IsDigit(p[8]) && JsLength(p) >= 8;
  }
}
