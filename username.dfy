/**
 * `username` (hw.js:54-57): ^[a-zA-Z]{1}[a-zA-Z0-9]{3,15}$
 */
module Username {
  import opened Chars
  import opened Scan

  /** The language of the pattern: one letter, then 3 to 15 letters or digits. */
  ghost predicate Pattern(s: string) {
    All(s, 0, 1, IsLetter) && 3 <= |s| - 1 <= 15 && All(s, 1, |s|, IsAlnum)
  }

  /** The predicate as a scanner: a letter, then letters and digits up to the end. */
  function Matches(s: string): bool {
    4 <= |s| <= 16 && IsLetter(s[0]) && RunEnd(s, 1, IsAlnum) == |s|
  }

  lemma MatchesIffPattern(s: string)
    ensures Matches(s) <==> Pattern(s)
  {
    if Pattern(s) {
      assert IsLetter(s[0]);
    }
  }

  /**
   * A username is accepted exactly when it is 4 to 16 characters long, its
   * first character is an ASCII letter and every later one an ASCII letter
   * or digit.
   */
  lemma MatchesIffShape(s: string)
    ensures Matches(s) <==>
      4 <= |s| <= 16 && IsLetter(s[0]) &&
      forall k | 1 <= k < |s| :: IsAlnum(s[k])
  {
    if 4 <= |s| <= 16 && IsLetter(s[0]) && forall k | 1 <= k < |s| :: IsAlnum(s[k]) {
      assert All(s, 1, |s|, IsAlnum);
    }
  }

  lemma Examples()
    ensures Matches("abcd") && Matches("a1b2c3d4e5f6g7h8") && Matches("abcdefghijklmnop")
    ensures !Matches("ab1") && !Matches("1abcd") && !Matches("abcdefghijklmnopq") && !Matches("ab_cd")
  {
    MatchesIffShape("abcd");
    MatchesIffShape("a1b2c3d4e5f6g7h8");
    MatchesIffShape("abcdefghijklmnop");
    MatchesIffShape("1abcd");
    MatchesIffShape("ab_cd");
    assert !IsAlnum("ab_cd"[2]);
  }
}
