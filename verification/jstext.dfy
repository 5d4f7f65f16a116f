/** The small slice of JavaScript string semantics the form handlers rely on:
    `String.prototype.trim`, `String.prototype.length` (UTF-16 code units) and
    the ASCII character classes `[0-9]`, `[A-Z]`, `[a-z]` of the patterns.
    A Dafny `char` is a Unicode scalar value; a JavaScript string is a sequence
    of UTF-16 code units. The two agree everywhere below except for length,
    where a character outside the Basic Multilingual Plane counts twice. */
module JsText {

  /** The regular-expression class `[0-9]`. */
  predicate IsDigit(c: char) {
    '0' <= c <= '9'
  }

  /** The regular-expression class `[A-Z]`. */
  predicate IsUpper(c: char) {
    'A' <= c <= 'Z'
  }

  /** The regular-expression class `[a-z]`. */
  predicate IsLower(c: char) {
    'a' <= c <= 'z'
  }

  /** The regular-expression class `[a-zA-Z]`. */
  predicate IsLetter(c: char) {
    IsUpper(c) || IsLower(c)
  }

  predicate AllDigits(s: string) {
    forall i :: 0 <= i < |s| ==> IsDigit(s[i])
  }

  /** The characters `trim` removes: ECMAScript WhiteSpace (TAB, VT, FF,
      ZWNBSP and every space separator of category Zs) and LineTerminator
      (LF, CR, LS, PS). */
  predicate IsJsWhitespace(c: char) {
    || c == '\t' || c == '\n' || c == '\U{000B}' || c == '\U{000C}' || c == '\r'
    || c == ' ' || c == '\U{00A0}' || c == '\U{1680}'
    || ('\U{2000}' <= c <= '\U{200A}')
    || c == '\U{2028}' || c == '\U{2029}' || c == '\U{202F}' || c == '\U{205F}'
    || c == '\U{3000}' || c == '\U{FEFF}'
  }

  /** `trim` never removes a digit or an ASCII letter, and every character
      it removes is a single UTF-16 code unit. */
  lemma WhitespaceIsNarrowNonAlnum(c: char)
    ensures IsJsWhitespace(c) ==> !IsDigit(c) && !IsLetter(c) && c as int < 0x1_0000
  {
  }

  predicate AllWhitespace(s: string) {
    forall i :: 0 <= i < |s| ==> IsJsWhitespace(s[i])
  }

  /** Drops leading whitespace: the result is a suffix of `s`, everything
      dropped was whitespace, and what is kept does not start with it. */
  function TrimStart(s: string): (r: string)
    ensures |r| <= |s| && r == s[|s| - |r|..]
    ensures AllWhitespace(s[..|s| - |r|])
    ensures r == [] || !IsJsWhitespace(r[0])
  {
    if s == [] || !IsJsWhitespace(s[0]) then s
    else
      var r := TrimStart(s[1..]);
      var k := |s| - |r|;
      assert s[1..][k - 1..] == s[k..];
      assert forall i :: 1 <= i < k ==> s[i] == s[1..][..k - 1][i - 1];
      r
  }

  /** Drops trailing whitespace: the result is a prefix of `s`, everything
      dropped was whitespace, and what is kept does not end with it. */
  function TrimEnd(s: string): (r: string)
    ensures |r| <= |s| && r == s[..|r|]
    ensures AllWhitespace(s[|r|..])
    ensures r == [] || !IsJsWhitespace(r[|r| - 1])
  {
    if s == [] || !IsJsWhitespace(s[|s| - 1]) then s
    else
      var r := TrimEnd(s[..|s| - 1]);
      assert s[..|s| - 1][..|r|] == s[..|r|];
      assert forall i :: |r| <= i < |s| - 1 ==> s[i] == s[..|s| - 1][|r|..][i - |r|];
      r
  }

  /** `String.prototype.trim`: whitespace is dropped from both ends, so the
      result neither starts nor ends with whitespace. */
  function Trim(s: string): (r: string)
    ensures |r| <= |s|
    ensures r == [] || (!IsJsWhitespace(r[0]) && !IsJsWhitespace(r[|r| - 1]))
  {
    TrimEnd(TrimStart(s))
  }

  /** The trimmed value is the slice `s[i..j]` such that everything outside
      it is whitespace. */
  lemma TrimIsSlice(s: string)
    ensures exists i, j :: 0 <= i <= j <= |s| && Trim(s) == s[i..j]
                           && AllWhitespace(s[..i]) && AllWhitespace(s[j..])
  {
    var t := TrimStart(s);
    var r := TrimEnd(t);
    var i := |s| - |t|;
    var j := i + |r|;
    assert r == s[i..j];
    assert s[j..] == t[|r|..];
  }

  /** The trimmed value is empty exactly when the whole value is whitespace. */
  lemma TrimEmptyIff(s: string)
    ensures Trim(s) == [] <==> AllWhitespace(s)
  {
  }

  /** A value that neither starts nor ends with whitespace is left unchanged,
      so in particular an all-digit value is. */
  lemma TrimNoEdgeWhitespace(s: string)
    requires s == [] || (!IsJsWhitespace(s[0]) && !IsJsWhitespace(s[|s| - 1]))
    ensures Trim(s) == s
  {
  }

  lemma TrimAllDigits(s: string)
    requires AllDigits(s)
    ensures Trim(s) == s
  {
    if s != [] {
      assert IsDigit(s[0]) && IsDigit(s[|s| - 1]);
    }
    TrimNoEdgeWhitespace(s);
  }

  /** Number of UTF-16 code units of one character. */
  function CodeUnits(c: char): nat {
    if c as int < 0x1_0000 then 1 else 2
  }

  /** `String.prototype.length`: the number of UTF-16 code units. */
  function JsLength(s: string): (n: nat)
    ensures |s| <= n <= 2 * |s|
    ensures (forall i :: 0 <= i < |s| ==> s[i] as int < 0x1_0000) ==> n == |s|
  {
    if s == [] then 0 else CodeUnits(s[0]) + JsLength(s[1..])
  }

  lemma JsLengthEmpty(s: string)
    ensures JsLength(s) == 0 <==> s == []
  {
  }

  /** The three single-class patterns the password check tests. */
  datatype CharClass = UpperClass | LowerClass | DigitClass

  predicate InClass(k: CharClass, c: char) {
    match k
    case UpperClass => IsUpper(c)
    case LowerClass => IsLower(c)
    case DigitClass => IsDigit(c)
  }

  /** `/[k]/.test(s)`, as the matcher scans: try each start position from
      the left. It succeeds iff some character of `s` is in the class. */
  function ClassTest(k: CharClass, s: string): (r: bool)
    ensures r <==> exists i :: 0 <= i < |s| && InClass(k, s[i])
  {
    if s == [] then false
    else if InClass(k, s[0]) then true
    else
      var r := ClassTest(k, s[1..]);
      assert forall i :: 1 <= i < |s| ==> s[i] == s[1..][i - 1];
      r
  }

  /** `/[A-Z]/.test(s)` */
  predicate HasUpper(s: string) {
    ClassTest(UpperClass, s)
  }

  /** `/[a-z]/.test(s)` */
  predicate HasLower(s: string) {
    ClassTest(LowerClass, s)
  }

  /** `/[0-9]/.test(s)` */
  predicate HasDigit(s: string) {
    ClassTest(DigitClass, s)
  }
}
