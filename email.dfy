/**
 * `email` (hw.js:36-39): the JavaScript literal
 * '^[a-zA-Z0-9_\.]+@[a-zA-Z]+\.[a-z]+\.?[a-z]*$' compiles to
 * ^[a-zA-Z0-9_.]+@[a-zA-Z]+.[a-z]+.?[a-z]*$ : inside the brackets the `.` is
 * a literal full stop, while the two `.` after the `@` match any character
 * but a line terminator.
 */
module Email {
  import opened Chars
  import opened Scan

  /** `[a-zA-Z0-9_.]` */
  predicate IsLocalChar(c: char) { IsAlnum(c) || c == '_' || c == '.' }

  /**
   * `[a-z]+.?[a-z]*` occupies s[i..], its `[a-z]+` ending at c and its
   * optional `.` spanning s[c..d].
   */
  ghost predicate SuffixParse(s: string, i: int, c: int, d: int) {
    i < c && c <= d <= c + 1 &&
    All(s, i, c, IsLower) && All(s, c, d, IsWildcard) && All(s, d, |s|, IsLower)
  }

  /**
   * The pattern matches s with the `@` at a, the first `.` at b, and the
   * rest as SuffixParse(s, b + 1, c, d) describes.
   */
  ghost predicate Parse(s: string, a: int, b: int, c: int, d: int) {
    1 <= a && a + 1 < b < |s| &&
    All(s, 0, a, IsLocalChar) && s[a] == '@' &&
    All(s, a + 1, b, IsLetter) && IsWildcard(s[b]) &&
    SuffixParse(s, b + 1, c, d)
  }

  /** The language of the pattern, anchored at both ends. */
  ghost predicate Pattern(s: string) {
    exists a, b, c, d :: Parse(s, a, b, c, d)
  }

  /**
   * Matches `[a-z]+.?[a-z]*` against s[i..]: the longest run of lower-case
   * letters, then, unless that reaches the end, one `.` and lower-case
   * letters up to the end.
   */
  function Suffix(s: string, i: nat): bool
    requires i <= |s|
  {
    var c := RunEnd(s, i, IsLower);
    c > i && (c == |s| || (IsWildcard(s[c]) && RunEnd(s, c + 1, IsLower) == |s|))
  }

  /**
   * Matches the rest of `[a-zA-Z]+.` and the suffix against s[j..], when
   * the letters before j belong to the `[a-zA-Z]+`: either s[j] is the `.`
   * and the suffix follows, or s[j] is one more letter (backtracking).
   */
  function Domain(s: string, j: nat): bool
    requires j <= |s|
    decreases |s| - j
  {
    j < |s| && ((IsWildcard(s[j]) && Suffix(s, j + 1)) || (IsLetter(s[j]) && Domain(s, j + 1)))
  }

  /** The predicate as a scanner. */
  function Matches(s: string): bool {
    var a := RunEnd(s, 0, IsLocalChar);
    1 <= a && a + 1 < |s| && s[a] == '@' && IsLetter(s[a + 1]) && Domain(s, a + 2)
  }

  /** Taking the longest lower-case run first loses no match of the suffix. */
  lemma SuffixIffParse(s: string, i: nat)
    requires i <= |s|
    ensures Suffix(s, i) <==> exists c, d :: SuffixParse(s, i, c, d)
  {
    var c := RunEnd(s, i, IsLower);
    if Suffix(s, i) {
      if c == |s| {
        assert SuffixParse(s, i, c, c);
      } else {
        assert SuffixParse(s, i, c, c + 1);
      }
    }
    if c', d' :| SuffixParse(s, i, c', d') {
      assert c' <= c;
      if d' == c' {
        assert All(s, i, |s|, IsLower);
      } else if c' < c {
        assert All(s, i, |s|, IsLower);
      }
    }
  }

  /** A `.` at b after letters from j is found by the backtracking domain matcher. */
  lemma {:induction false} DomainOfDot(s: string, j: nat, b: nat)
    requires j <= b < |s| && All(s, j, b, IsLetter) && IsWildcard(s[b]) && Suffix(s, b + 1)
    ensures Domain(s, j)
    decreases b - j
  {
    if j < b {
      DomainOfDot(s, j + 1, b);
      assert IsLetter(s[j]);
    }
  }

  /** When the domain matcher succeeds from j, some `.` at b follows letters from j. */
  lemma {:induction false} DotOfDomain(s: string, j: nat) returns (b: nat)
    requires j <= |s| && Domain(s, j)
    ensures j <= b < |s| && All(s, j, b, IsLetter) && IsWildcard(s[b]) && Suffix(s, b + 1)
    decreases |s| - j
  {
    if IsWildcard(s[j]) && Suffix(s, j + 1) {
      b := j;
    } else {
      b := DotOfDomain(s, j + 1);
      assert All(s, j, b, IsLetter);
    }
  }

  lemma MatchesOnlyPattern(s: string)
    requires Matches(s)
    ensures Pattern(s)
  {
    var a := RunEnd(s, 0, IsLocalChar);
    var b := DotOfDomain(s, a + 2);
    assert All(s, a + 1, b, IsLetter);
    SuffixIffParse(s, b + 1);
    var c, d :| SuffixParse(s, b + 1, c, d);
    assert Parse(s, a, b, c, d);
  }

  lemma PatternOnlyMatches(s: string, a: int, b: int, c: int, d: int)
    requires Parse(s, a, b, c, d)
    ensures Matches(s)
  {
    assert !IsLocalChar(s[a]);
    assert RunEnd(s, 0, IsLocalChar) == a;
    SuffixIffParse(s, b + 1);
    assert All(s, a + 2, b, IsLetter);
    DomainOfDot(s, a + 2, b);
  }

  lemma MatchesIffPattern(s: string)
    ensures Matches(s) <==> Pattern(s)
  {
    if Matches(s) {
      MatchesOnlyPattern(s);
    }
    if Pattern(s) {
      var a, b, c, d :| Parse(s, a, b, c, d);
      PatternOnlyMatches(s, a, b, c, d);
    }
  }

  /**
   * In an accepted address, the text before the first `@` is a non-empty
   * run of letters, digits, `_` and `.`, and the text after it is at least
   * three characters long and starts with a letter.
   */
  lemma AcceptedShape(s: string) returns (a: nat)
    requires Matches(s)
    ensures a < |s| && s[a] == '@' && '@' !in s[..a]
    ensures a >= 1 && All(s, 0, a, IsLocalChar)
    ensures |s| - (a + 1) >= 3 && IsLetter(s[a + 1])
  {
    MatchesIffPattern(s);
    var b, c, d;
    a, b, c, d :| Parse(s, a, b, c, d);
    assert forall k | 0 <= k < a :: s[..a][k] != '@';
  }

  lemma AcceptedExamples()
    ensures Matches("a.b_c@example.com")
  {
    PatternOnlyMatches("a.b_c@example.com", 5, 13, 17, 17);
  }

  /** The `.?` of the suffix lets a second label follow the first. */
  lemma TwoLabelExample()
    ensures Matches("x@mail.co.uk")
  {
    PatternOnlyMatches("x@mail.co.uk", 1, 6, 9, 10);
  }

  /** The first `.` after the `@` matches any character, a letter or a second `@` included. */
  lemma WildcardExamples()
    ensures Matches("a@bcd") && Matches("a@b@c")
  {
    PatternOnlyMatches("a@bcd", 1, 3, 5, 5);
    PatternOnlyMatches("a@b@c", 1, 3, 5, 5);
  }

  /** An upper-case letter is accepted in the first label after the `@`. */
  lemma UpperCaseDomainExample()
    ensures Matches("a@B.com")
  {
    PatternOnlyMatches("a@B.com", 1, 3, 7, 7);
  }

  lemma RejectedExamples()
    ensures !Matches("a@b") && !Matches("@a.com") && !Matches("a@1.com") && !Matches("a b@c.com")
  {
    if Matches("a@b") {
      var a := AcceptedShape("a@b");
      assert false;
    }
    var t := "@a.com";
    if Matches(t) {
      var a := AcceptedShape(t);
      assert false;
    }
    var u := "a@1.com";
    assert !IsLetter(u[2]);
    if Matches(u) {
      var a := AcceptedShape(u);
      assert false;
    }
    var v := "a b@c.com";
    assert !IsLocalChar(v[1]);
    if Matches(v) {
      var a := AcceptedShape(v);
      assert false;
    }
  }
}
