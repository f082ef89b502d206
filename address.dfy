/**
 * `address` (hw.js:46-49): the pattern
 * ^[0-9]+ [A-Z]{1}[a-zA-Z]+ [A-Z]?[a-zA-Z]*[ ]?[Ave|St|Lane|Blvd]{2,4}$ .
 * The last bracket list is a character class, not a choice of words: it
 * holds the twelve characters A v e | S t L a n B l d, so 2 to 4 of them
 * end an address, in any order.
 */
module Address {
  import opened Chars
  import opened Scan

  /** `[Ave|St|Lane|Blvd]` */
  predicate IsSuffixChar(c: char) {
    c in {'A', 'v', 'e', '|', 'S', 't', 'L', 'a', 'n', 'B', 'l', 'd'}
  }

  /** `[ ]` */
  predicate IsSpace(c: char) { c == ' ' }

  /**
   * `[a-zA-Z]*[ ]?[Ave|St|Lane|Blvd]{2,4}$` occupies s[i..]: its letters
   * span s[i..d], its optional space s[d..e] and its suffix s[e..].
   */
  ghost predicate Street(s: string, i: int, d: int, e: int) {
    i <= d && All(s, i, d, IsLetter) &&
    d <= e <= d + 1 && All(s, d, e, IsSpace) &&
    2 <= |s| - e <= 4 && All(s, e, |s|, IsSuffixChar)
  }

  /**
   * The pattern matches s with the first space at a, the second at b, the
   * optional `[A-Z]?` spanning s[b + 1..c] and the rest as Street(s, c, d, e)
   * describes.
   */
  ghost predicate Parse(s: string, a: int, b: int, c: int, d: int, e: int) {
    1 <= a && a + 2 < b < |s| &&
    All(s, 0, a, IsDigit) && s[a] == ' ' && IsUpper(s[a + 1]) &&
    All(s, a + 2, b, IsLetter) && s[b] == ' ' &&
    b + 1 <= c <= b + 2 && All(s, b + 1, c, IsUpper) &&
    Street(s, c, d, e)
  }

  /** The language of the pattern, anchored at both ends. */
  ghost predicate Pattern(s: string) {
    exists a, b, c, d, e :: Parse(s, a, b, c, d, e)
  }

  /** `[Ave|St|Lane|Blvd]{2,4}$` against s[e..]. */
  function Ending(s: string, e: nat): bool
    requires e <= |s|
  {
    2 <= |s| - e <= 4 && RunEnd(s, e, IsSuffixChar) == |s|
  }

  /**
   * Matches `[a-zA-Z]*[ ]?[Ave|St|Lane|Blvd]{2,4}$` against s[j..], when the
   * letters before j belong to the `[a-zA-Z]*`: one more letter first, then
   * the space, then the suffix straight away (backtracking).
   */
  function Rest(s: string, j: nat): bool
    requires j <= |s|
    decreases |s| - j
  {
    (j < |s| && IsLetter(s[j]) && Rest(s, j + 1)) ||
    (j < |s| && IsSpace(s[j]) && Ending(s, j + 1)) ||
    Ending(s, j)
  }

  /** The predicate as a scanner. */
  function Matches(s: string): bool {
    var a := RunEnd(s, 0, IsDigit);
    1 <= a && a + 1 < |s| && s[a] == ' ' && IsUpper(s[a + 1]) &&
    var b := RunEnd(s, a + 2, IsLetter);
    a + 2 < b < |s| && s[b] == ' ' &&
    ((b + 1 < |s| && IsUpper(s[b + 1]) && Rest(s, b + 2)) || Rest(s, b + 1))
  }

  /** The backtracking over the letters, the space and the suffix misses no match. */
  lemma {:induction false} RestIffStreet(s: string, j: nat)
    requires j <= |s|
    ensures Rest(s, j) <==> exists d, e :: Street(s, j, d, e)
    decreases |s| - j
  {
    if j < |s| {
      RestIffStreet(s, j + 1);
      if IsLetter(s[j]) && Rest(s, j + 1) {
        var d, e :| Street(s, j + 1, d, e);
        assert Street(s, j, d, e);
      }
    }
    if j < |s| && IsSpace(s[j]) && Ending(s, j + 1) {
      assert Street(s, j, j, j + 1);
    }
    if Ending(s, j) {
      assert Street(s, j, j, j);
    }
    if d, e :| Street(s, j, d, e) {
      if d > j {
        assert IsLetter(s[j]) && Street(s, j + 1, d, e);
      } else if e == j {
        assert Ending(s, j);
      } else {
        assert IsSpace(s[j]) && Ending(s, j + 1);
      }
    }
  }

  lemma MatchesOnlyPattern(s: string)
    requires Matches(s)
    ensures Pattern(s)
  {
    var a := RunEnd(s, 0, IsDigit);
    var b := RunEnd(s, a + 2, IsLetter);
    var c := if b + 1 < |s| && IsUpper(s[b + 1]) && Rest(s, b + 2) then b + 2 else b + 1;
    assert Rest(s, c);
    RestIffStreet(s, c);
    var d, e :| Street(s, c, d, e);
    assert Parse(s, a, b, c, d, e);
  }

  lemma PatternOnlyMatches(s: string, a: int, b: int, c: int, d: int, e: int)
    requires Parse(s, a, b, c, d, e)
    ensures Matches(s)
  {
    assert RunEnd(s, 0, IsDigit) == a;
    assert RunEnd(s, a + 2, IsLetter) == b;
    RestIffStreet(s, c);
    assert Rest(s, c);
  }

  lemma MatchesIffPattern(s: string)
    ensures Matches(s) <==> Pattern(s)
  {
    if Matches(s) {
      MatchesOnlyPattern(s);
    }
    if Pattern(s) {
      var a, b, c, d, e :| Parse(s, a, b, c, d, e);
      PatternOnlyMatches(s, a, b, c, d, e);
    }
  }

  /**
   * An accepted address starts with a run of digits, a space and an
   * upper-case letter, and its last two characters come from the suffix
   * class.
   */
  lemma AcceptedShape(s: string) returns (a: nat)
    requires Matches(s)
    ensures 1 <= a && a + 1 < |s| && All(s, 0, a, IsDigit) && s[a] == ' ' && IsUpper(s[a + 1])
    ensures IsSuffixChar(s[|s| - 2]) && IsSuffixChar(s[|s| - 1])
  {
    MatchesIffPattern(s);
    var b, c, d, e;
    a, b, c, d, e :| Parse(s, a, b, c, d, e);
  }

  lemma AcceptedExamples()
    ensures Matches("12 Oak Ave") && Matches("7 Elm St")
  {
    PatternOnlyMatches("12 Oak Ave", 2, 6, 7, 7, 7);
    PatternOnlyMatches("7 Elm St", 1, 5, 6, 6, 6);
  }

  /**
   * The suffix is any 2 to 4 characters of the class: "Street" ends in
   * "eet", and `|` belongs to the class.
   */
  lemma SuffixClassExamples()
    ensures Matches("12 Main Street") && Matches("12 Oak ||")
  {
    PatternOnlyMatches("12 Main Street", 2, 7, 9, 11, 11);
    PatternOnlyMatches("12 Oak ||", 2, 6, 7, 7, 7);
  }

  lemma RejectedExamples()
    ensures !Matches("Oak Ave") && !Matches("12 Oak Park") && !Matches("12 oak Ave")
  {
    var t := "Oak Ave";
    assert !IsDigit(t[0]);
    if Matches(t) {
      var a := AcceptedShape(t);
      assert false;
    }
    var u := "12 Oak Park";
    assert !IsSuffixChar(u[|u| - 1]);
    if Matches(u) {
      var a := AcceptedShape(u);
      assert false;
    }
    var v := "12 oak Ave";
    assert RunEnd(v, 0, IsDigit) == 2;
    assert !IsUpper(v[3]);
  }
}
