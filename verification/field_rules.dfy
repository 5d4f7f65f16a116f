/** A field's rule set as data: an ordered list of checks, each with the
    message it reports when it fails. Evaluation reports the message of the
    first failing check, or that the field is valid when every check holds.
    The four validators of the submit handler are each proved equal to one of
    these lists (see `FormValidation`). */
module FieldRules {
  import opened JsText
  import EmailPattern

  /** The outcome for one field: valid, or exactly one error message. */
  datatype FieldResult = Ok | Err(message: string)

  /** The tests the submit handler applies to a field value. Lengths are
      JavaScript lengths (UTF-16 code units). */
  datatype Check =
    | NotEmpty            // value !== ''
    | MinLength(n: nat)   // value.length >= n
    | LengthIs(n: nat)    // value.length === n
    | EmailFormat         // the email pattern matches
    | HasUppercase        // /[A-Z]/.test(value)
    | HasLowercase        // /[a-z]/.test(value)
    | HasNumber           // /[0-9]/.test(value)

  predicate Holds(c: Check, v: string) {
    match c
    case NotEmpty => v != []
    case MinLength(n) => JsLength(v) >= n
    case LengthIs(n) => JsLength(v) == n
    case EmailFormat => EmailPattern.Matches(v)
    case HasUppercase => HasUpper(v)
    case HasLowercase => HasLower(v)
    case HasNumber => HasDigit(v)
  }

  datatype Rule = Rule(check: Check, message: string)

  /** Runs the rules in order and stops at the first one that fails. */
  function FirstFailure(rules: seq<Rule>, v: string): (r: FieldResult)
    ensures r.Ok? <==> forall i :: 0 <= i < |rules| ==> Holds(rules[i].check, v)
    ensures r.Err? ==> exists i :: && 0 <= i < |rules|
                                   && !Holds(rules[i].check, v)
                                   && r.message == rules[i].message
                                   && forall j :: 0 <= j < i ==> Holds(rules[j].check, v)
  {
    if rules == [] then Ok
    else if !Holds(rules[0].check, v) then Err(rules[0].message)
    else
      var r := FirstFailure(rules[1..], v);
      assert forall i :: 1 <= i < |rules| ==> rules[i] == rules[1..][i - 1];
      r
  }

  /** The message reported is the one of the earliest failing rule: when
      rule `k` fails and all rules before it hold, its message is reported. */
  lemma FirstFailureAt(rules: seq<Rule>, v: string, k: nat)
    requires k < |rules|
    requires !Holds(rules[k].check, v)
    requires forall j :: 0 <= j < k ==> Holds(rules[j].check, v)
    ensures FirstFailure(rules, v) == Err(rules[k].message)
  {
  }
}
