/** The email rule of the registration service: the anchored pattern
    `^\S+?@\S+\.\S+$` (App/CustomerService.ts:90), restated without a regex
    engine. `MatchesEmailPattern` is what the pattern means; `ScanAccepts`
    decides it with two scans and `ScanMatchesPattern` proves they agree;
    `PatternByMarkers` restates the pattern by the positions of `@` and `.`,
    and `IsValidEmail`, the rule's test, is the scan promising that form. */
module EmailPattern {

  /** The Unicode general category Zs (space separators). */
  const SpaceSeparators: set<int> :=
    {0x20, 0xA0, 0x1680} + (set n | 0x2000 <= n <= 0x200A) + {0x202F, 0x205F, 0x3000}

  /** ECMAScript WhiteSpace: tab, vertical tab, form feed, no-break space,
      zero width no-break space and every Zs character. */
  const WhiteSpaceCodes: set<int> := {0x09, 0x0B, 0x0C, 0xA0, 0xFEFF} + SpaceSeparators

  /** ECMAScript LineTerminator: LF, CR, line separator, paragraph separator. */
  const LineTerminatorCodes: set<int> := {0x0A, 0x0D, 0x2028, 0x2029}

  /** The characters JavaScript's `\s` class matches, decided by code point
      ranges; `WhitespaceIsEcmaScriptSet` shows these are exactly the
      ECMAScript WhiteSpace and LineTerminator sets. */
  predicate IsWhitespace(c: char)
  {
    var n := c as int;
    || (0x09 <= n <= 0x0D)
    || n == 0x20
    || n == 0xA0
    || n == 0x1680
    || (0x2000 <= n <= 0x200A)
    || n == 0x2028
    || n == 0x2029
    || n == 0x202F
    || n == 0x205F
    || n == 0x3000
    || n == 0xFEFF
  }

  /** The range test agrees with the two sets as ECMAScript lists them. */
  lemma WhitespaceIsEcmaScriptSet(c: char)
    ensures IsWhitespace(c) <==> (c as int) in WhiteSpaceCodes + LineTerminatorCodes
  {
  }

  /** Every character is matched by `\S`. */
  predicate NoWhitespace(s: string)
  {
    forall k :: 0 <= k < |s| ==> !IsWhitespace(s[k])
  }

  /** `s` splits as `\S+` `@` `\S+` `.` `\S+` with the `@` at `i` and the
      `.` at `j`: one reading of the whole string by the anchored pattern. */
  ghost predicate SplitsAsEmail(s: string, i: int, j: int)
  {
    && 1 <= i
    && i + 2 <= j
    && j + 2 <= |s|
    && s[i] == '@'
    && s[j] == '.'
    && NoWhitespace(s[..i])
    && NoWhitespace(s[i + 1..j])
    && NoWhitespace(s[j + 1..])
  }

  /** The anchored pattern matches `s`: some choice of `@` and `.` reads
      the whole string. */
  ghost predicate MatchesEmailPattern(s: string)
  {
    exists i, j :: SplitsAsEmail(s, i, j)
  }

  /** The first `@` at or after `from`, or `|s|` when there is none. */
  function FirstAtFrom(s: string, from: nat): (k: nat)
    requires from <= |s|
    ensures from <= k <= |s|
    ensures k < |s| ==> s[k] == '@'
    ensures forall m :: from <= m < k ==> s[m] != '@'
    decreases |s| - from
  {
    if from == |s| then |s|
    else if s[from] == '@' then from
    else FirstAtFrom(s, from + 1)
  }

  /** The last `.` strictly before `end`, or -1 when there is none. */
  function LastDotBefore(s: string, end: nat): (k: int)
    requires end <= |s|
    ensures -1 <= k < end
    ensures k >= 0 ==> s[k] == '.'
    ensures forall m :: k < m < end ==> s[m] != '.'
    decreases end
  {
    if end == 0 then -1
    else if s[end - 1] == '.' then end - 1
    else LastDotBefore(s, end - 1)
  }

  /** Decides the pattern: no whitespace anywhere, and the earliest `@`
      that has something before it lies at least two places before the
      latest `.` that has something after it. */
  function ScanAccepts(s: string): bool
  {
    if |s| == 0 then false
    else
      var i := FirstAtFrom(s, 1);
      var j := LastDotBefore(s, |s| - 1);
      NoWhitespace(s) && i < |s| && i + 2 <= j
  }

  /** A whole string has no whitespace when its three parts and the two
      separators have none. */
  lemma NoWhitespaceFromParts(s: string, i: int, j: int)
    requires SplitsAsEmail(s, i, j)
    ensures NoWhitespace(s)
  {
    forall k | 0 <= k < |s|
      ensures !IsWhitespace(s[k])
    {
      if k < i {
        assert s[k] == s[..i][k];
      } else if i < k < j {
        assert s[k] == s[i + 1..j][k - i - 1];
      } else if j < k {
        assert s[k] == s[j + 1..][k - j - 1];
      }
    }
  }

  /** The scan accepts exactly the strings the pattern matches. */
  lemma ScanMatchesPattern(s: string)
    ensures ScanAccepts(s) <==> MatchesEmailPattern(s)
  {
    if ScanAccepts(s) {
      var i := FirstAtFrom(s, 1);
      var j := LastDotBefore(s, |s| - 1);
      assert SplitsAsEmail(s, i, j);
    }
    if MatchesEmailPattern(s) {
      var i0, j0 :| SplitsAsEmail(s, i0, j0);
      NoWhitespaceFromParts(s, i0, j0);
      var i := FirstAtFrom(s, 1);
      var j := LastDotBefore(s, |s| - 1);
      assert i <= i0 < |s|;
      assert j0 <= j;
      assert ScanAccepts(s);
    }
  }

  /** The email test of the registration service, `email.match(pattern) != null`:
      true exactly when the address has no whitespace, an `@` with something
      before it, and a `.` at least two places later with something after it. */
  function IsValidEmail(s: string): (b: bool)
    ensures b <==>
      && NoWhitespace(s)
      && exists i, j :: 1 <= i && i + 2 <= j <= |s| - 2 && s[i] == '@' && s[j] == '.'
  {
    ScanMatchesPattern(s);
    PatternByMarkers(s);
    ScanAccepts(s)
  }

  /** The pattern in terms of positions only: no whitespace, an `@` with at
      least one character before it, and a `.` at least two places after
      that `@` with at least one character after it. */
  lemma PatternByMarkers(s: string)
    ensures MatchesEmailPattern(s) <==>
      && NoWhitespace(s)
      && exists i, j :: 1 <= i && i + 2 <= j <= |s| - 2 && s[i] == '@' && s[j] == '.'
  {
    if MatchesEmailPattern(s) {
      var i, j :| SplitsAsEmail(s, i, j);
      NoWhitespaceFromParts(s, i, j);
      assert 1 <= i && i + 2 <= j <= |s| - 2 && s[i] == '@' && s[j] == '.';
    }
    if NoWhitespace(s) && exists i, j :: 1 <= i && i + 2 <= j <= |s| - 2 && s[i] == '@' && s[j] == '.' {
      var i, j :| 1 <= i && i + 2 <= j <= |s| - 2 && s[i] == '@' && s[j] == '.';
      assert NoWhitespace(s[..i]);
      assert NoWhitespace(s[i + 1..j]);
      assert NoWhitespace(s[j + 1..]);
      assert SplitsAsEmail(s, i, j);
    }
  }

  /** An address without any `@` is rejected. */
  lemma RejectsWithoutAt(s: string)
    requires '@' !in s
    ensures !IsValidEmail(s)
  {
  }

  /** An address with whitespace anywhere is rejected. */
  lemma RejectsWhitespace(s: string, k: int)
    requires 0 <= k < |s| && IsWhitespace(s[k])
    ensures !IsValidEmail(s)
  {
  }

  /** An address whose every `.` comes before every `@` is rejected. */
  lemma RejectsWithoutDotAfterAt(s: string, before: string, after: string)
    requires s == before + after
    requires '@' !in before
    requires '.' !in after
    ensures !IsValidEmail(s)
  {
  }

  /** Three non-empty whitespace-free parts joined by `@` and `.` are
      accepted, whatever else the parts contain. */
  lemma AcceptsParts(local: string, domain: string, tld: string)
    requires |local| >= 1 && |domain| >= 1 && |tld| >= 1
    requires NoWhitespace(local) && NoWhitespace(domain) && NoWhitespace(tld)
    ensures IsValidEmail(local + "@" + domain + "." + tld)
  {
    var s := local + "@" + domain + "." + tld;
    var i, j := |local|, |local| + 1 + |domain|;
    assert s[..i] == local;
    assert s[i + 1..j] == domain;
    assert s[j + 1..] == tld;
    assert SplitsAsEmail(s, i, j);
  }

  /** The addresses the service's tests reject, and the one they accept. */
  lemma RejectsEmpty()
    ensures !IsValidEmail("")
  {
  }

  lemma RejectsMissingDot()
    ensures !IsValidEmail("first.last@email")
  {
    RejectsWithoutDotAfterAt("first.last@email", "first.last", "@email");
  }

  lemma RejectsMissingAt()
    ensures !IsValidEmail("first.lastATemail.com")
  {
    RejectsWithoutAt("first.lastATemail.com");
  }

  lemma RejectsSpace()
    ensures !IsValidEmail("first last@email.com")
  {
    RejectsWhitespace("first last@email.com", 5);
  }

  lemma AcceptsPlainAddress()
    ensures IsValidEmail("first.last@email.com")
  {
    var s := "first.last@email.com";
    assert s == "first.last" + "@" + "email" + "." + "com";
    AcceptsParts("first.last", "email", "com");
  }
}
