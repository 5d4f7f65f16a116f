/** The email pattern of the submit handler,
      ^[a-zA-Z0-9._-]+@[a-zA-Z0-9.-]+\.[a-zA-Z]{2,6}$
    (no flags: case-sensitive classes, `$` only at the very end). It is stated
    twice: as the set of ways the pattern can split a string (`Pattern`) and
    as a matcher that needs no backtracking (`Matches`), which cuts at the
    first `@` and at the last `.` after it. `MatchesIffPattern` proves the two
    agree on every string. */
module EmailPattern {
  import opened JsText

  /** `[a-zA-Z0-9._-]` */
  predicate IsLocalChar(c: char) {
    IsLetter(c) || IsDigit(c) || c == '.' || c == '_' || c == '-'
  }

  /** `[a-zA-Z0-9.-]` */
  predicate IsDomainChar(c: char) {
    IsLetter(c) || IsDigit(c) || c == '.' || c == '-'
  }

  /** `[a-zA-Z0-9._-]+` */
  predicate IsLocalPart(s: string) {
    |s| >= 1 && forall i :: 0 <= i < |s| ==> IsLocalChar(s[i])
  }

  /** `[a-zA-Z0-9.-]+` */
  predicate IsDomainBody(s: string) {
    |s| >= 1 && forall i :: 0 <= i < |s| ==> IsDomainChar(s[i])
  }

  /** `[a-zA-Z]{2,6}` */
  predicate IsTld(s: string) {
    2 <= |s| <= 6 && forall i :: 0 <= i < |s| ==> IsLetter(s[i])
  }

  /** `s` splits as local part, `@` at index `at`, domain body, `.` at index
      `dot`, top-level domain. */
  predicate SplitsAt(s: string, at: int, dot: int) {
    && 0 <= at < dot < |s|
    && s[at] == '@' && s[dot] == '.'
    && IsLocalPart(s[..at])
    && IsDomainBody(s[at + 1..dot])
    && IsTld(s[dot + 1..])
  }

  /** The pattern matches `s`: some split of `s` fits it. A match is at
      least six characters long (`a@b.cd`), does not start with `@` and ends
      with a letter. */
  ghost predicate Pattern(s: string)
    ensures Pattern(s) ==> 6 <= |s| && s[0] != '@' && IsLetter(s[|s| - 1])
  {
    exists at, dot :: SplitsAt(s, at, dot)
  }

  /** Index of the first `c` in `s`, or `|s|` if there is none. */
  function FirstIndex(s: string, c: char): (i: nat)
    ensures i <= |s|
    ensures i < |s| ==> s[i] == c
    ensures forall j :: 0 <= j < i ==> s[j] != c
  {
    if s == [] then 0
    else if s[0] == c then 0
    else 1 + FirstIndex(s[1..], c)
  }

  /** Index of the last `c` in `s`, or `-1` if there is none. */
  function LastIndex(s: string, c: char): (i: int)
    ensures -1 <= i < |s|
    ensures 0 <= i ==> s[i] == c
    ensures forall j :: i < j < |s| ==> s[j] != c
  {
    if s == [] then -1
    else if s[|s| - 1] == c then |s| - 1
    else LastIndex(s[..|s| - 1], c)
  }

  /** The matcher: cut at the first `@`, then cut what follows at its last
      `.`, and check the three pieces. It accepts exactly the strings the
      pattern matches. */
  function Matches(s: string): (r: bool)
    ensures r <==> Pattern(s)
  {
    var at := FirstIndex(s, '@');
    if at == |s| then false
    else
      var rest := s[at + 1..];
      var d := LastIndex(rest, '.');
      PatternCutsAtFirstAtLastDot(s, at, at + 1 + d);
      if d < 0 then false
      else SplitsAt(s, at, at + 1 + d)
  }

  /** A split fixes its cut points: the `@` is the first one in `s` (the
      local part holds none) and the `.` is the last one (the top-level
      domain is letters only). */
  lemma SplitIsFirstAtLastDot(s: string, at: int, dot: int)
    requires SplitsAt(s, at, dot)
    ensures FirstIndex(s, '@') == at
    ensures LastIndex(s[at + 1..], '.') == dot - at - 1
  {
  }

  /** The pattern matches iff the split at the first `@` and at the last
      `.` after it fits. */
  lemma PatternCutsAtFirstAtLastDot(s: string, at: nat, dot: int)
    requires at == FirstIndex(s, '@') < |s|
    requires dot == at + 1 + LastIndex(s[at + 1..], '.')
    ensures Pattern(s) <==> SplitsAt(s, at, dot)
  {
    if Pattern(s) {
      var at', dot' :| SplitsAt(s, at', dot');
      SplitIsFirstAtLastDot(s, at', dot');
      assert at' == at && dot' == dot;
    } else {
      assert !SplitsAt(s, at, dot);
    }
  }

  /** The matcher accepts exactly the strings the pattern matches. */
  lemma MatchesIffPattern(s: string)
    ensures Matches(s) <==> Pattern(s)
  {
  }

  /** A matched address holds exactly one `@`: neither the local part, the
      domain body nor the top-level domain may contain one. */
  lemma PatternHasOneAt(s: string, at: int, dot: int)
    requires SplitsAt(s, at, dot)
    ensures multiset(s)['@'] == 1
  {
    var local, body, tld := s[..at], s[at + 1..dot], s[dot + 1..];
    assert s == local + [s[at]] + body + [s[dot]] + tld;
    assert '@' !in local && '@' !in body && '@' !in tld;
  }

  /** Instances of the pattern: an ordinary address matches; a doubled `@`,
      a one-letter and a seven-letter top-level domain do not. */
  lemma PatternAcceptsPlainAddress()
    ensures Pattern("user@example.com")
  {
    assert SplitsAt("user@example.com", 4, 12);
  }

  lemma PatternRejectsDoubleAt()
    ensures !Pattern("user@@example.com")
  {
    var s := "user@@example.com";
    PatternRejectsTwoAts(s, 4, 5);
  }

  /** No string with two `@` characters matches. */
  lemma PatternRejectsTwoAts(s: string, j: int, k: int)
    requires 0 <= j < k < |s| && s[j] == '@' && s[k] == '@'
    ensures !Pattern(s)
  {
  }

  lemma PatternRejectsShortTld()
    ensures !Pattern("a@b.c")
  {
  }
}
