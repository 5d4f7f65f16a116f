/** The live filter on the phone field: on every input event the value is
    rewritten as `value.replace(/[^0-9]/g, '')`, i.e. every character outside
    `0`-`9` is deleted and the digits keep their order. */
module PhoneInput {
  import opened JsText

  /** Reference definition: the digits of `s`, in order. */
  function KeepDigits(s: string): (r: string)
    ensures |r| <= |s|
    ensures AllDigits(r)
  {
    if s == [] then []
    else if IsDigit(s[0]) then [s[0]] + KeepDigits(s[1..])
    else KeepDigits(s[1..])
  }

  /** The rewrite applied by the input handler, written as the global
      replace walks the string: one character at a time, left to right. */
  method FilterDigits(s: string) returns (r: string)
    ensures r == KeepDigits(s)
    ensures AllDigits(r)
  {
    r := [];
    var i := 0;
    while i < |s|
      invariant 0 <= i <= |s|
      invariant r + KeepDigits(s[i..]) == KeepDigits(s)
    {
      assert s[i..][1..] == s[i + 1..];
      if IsDigit(s[i]) {
        r := r + [s[i]];
      }
      i := i + 1;
    }
  }

  /** Filtering distributes over concatenation. Together with the one-
      character cases this fixes `KeepDigits` completely: the output is the
      input with its non-digits removed and nothing reordered. */
  lemma {:induction false} KeepDigitsAppend(a: string, b: string)
    ensures KeepDigits(a + b) == KeepDigits(a) + KeepDigits(b)
  {
    if a != [] {
      assert (a + b)[1..] == a[1..] + b;
      KeepDigitsAppend(a[1..], b);
    } else {
      assert a + b == b;
    }
  }

  lemma KeepDigitsSingle(c: char)
    ensures KeepDigits([c]) == (if IsDigit(c) then [c] else [])
  {
  }

  /** A value made only of digits passes through the filter unchanged. */
  lemma {:induction false} KeepDigitsOfDigits(s: string)
    requires AllDigits(s)
    ensures KeepDigits(s) == s
  {
    if s != [] {
      KeepDigitsOfDigits(s[1..]);
    }
  }

  /** Filtering twice is filtering once. */
  lemma KeepDigitsIdempotent(s: string)
    ensures KeepDigits(KeepDigits(s)) == KeepDigits(s)
  {
  }

  /** The filter keeps every digit the value held and only those: each
      character occurs in the output exactly as often as it occurs in the
      input when it is a digit, and not at all otherwise. */
  lemma {:induction false} KeepDigitsCounts(s: string, c: char)
    ensures multiset(KeepDigits(s))[c] == (if IsDigit(c) then multiset(s)[c] else 0)
  {
    if s != [] {
      assert s == [s[0]] + s[1..];
      KeepDigitsCounts(s[1..], c);
    }
  }

  /** The filter leaves the value's trimmed form and its JavaScript length
      alone: digits are neither whitespace nor outside the Basic Multilingual
      Plane. */
  lemma FilteredIsTrimmedAndShort(s: string)
    ensures Trim(KeepDigits(s)) == KeepDigits(s)
    ensures JsLength(KeepDigits(s)) == |KeepDigits(s)|
  {
    TrimAllDigits(KeepDigits(s));
  }

  /** Typing `12a3-4` leaves `1234` in the field. */
  lemma FilterExample()
    ensures KeepDigits("12a3-4") == "1234"
  {
  }
}
