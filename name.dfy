/**
 * `name` (hw.js:11-14): ^[a-zA-Z]{2,}[ -]?[a-zA-Z]*[ -]?[a-zA-Z]*$
 *
 * Although the comment above it speaks only of hyphens, the separator class
 * `[ -]` admits a space as well.
 */
module Name {
  import opened Chars
  import opened Scan

  /** `[ -]` */
  predicate IsSeparator(c: char) { c == ' ' || c == '-' }

  /**
   * The pattern matches s with its five quantified parts ending at i, j, k,
   * l and |s|.
   */
  ghost predicate Parse(s: string, i: int, j: int, k: int, l: int) {
    2 <= i && j <= i + 1 && l <= k + 1 &&
    All(s, 0, i, IsLetter) && All(s, i, j, IsSeparator) &&
    All(s, j, k, IsLetter) && All(s, k, l, IsSeparator) &&
    All(s, l, |s|, IsLetter)
  }

  /** The language of the pattern, anchored at both ends. */
  ghost predicate Pattern(s: string) {
    exists i, j, k, l :: Parse(s, i, j, k, l)
  }

  /**
   * The predicate as a scanner: the longest leading run of letters, then
   * up to two runs of letters each introduced by one separator.
   */
  function Matches(s: string): bool {
    var a := RunEnd(s, 0, IsLetter);
    a >= 2 &&
    (a == |s| ||
     (IsSeparator(s[a]) &&
      var b := RunEnd(s, a + 1, IsLetter);
      b == |s| || (IsSeparator(s[b]) && RunEnd(s, b + 1, IsLetter) == |s|)))
  }

  lemma MatchesIffPattern(s: string)
    ensures Matches(s) <==> Pattern(s)
  {
    var a := RunEnd(s, 0, IsLetter);
    if Matches(s) {
      if a == |s| {
        assert Parse(s, a, a, a, a);
      } else {
        var b := RunEnd(s, a + 1, IsLetter);
        if b == |s| {
          assert Parse(s, a, a + 1, b, b);
        } else {
          assert Parse(s, a, a + 1, b, b + 1);
        }
      }
    }
    if Pattern(s) {
      var i, j, k, l :| Parse(s, i, j, k, l);
      assert i <= a;
      if a < |s| {
        if j == i + 1 {
          assert IsSeparator(s[i]);
          assert a == i;
          var b := RunEnd(s, a + 1, IsLetter);
          assert k <= b;
          if b < |s| {
            assert l == k + 1 && IsSeparator(s[k]);
            assert b == k;
          }
        } else {
          assert All(s, 0, k, IsLetter);
          assert k <= a;
          assert l == k + 1 && IsSeparator(s[k]);
          assert a == k;
        }
      }
    }
  }

  /** No three positions of s all hold a separator. */
  ghost predicate AtMostTwoSeparators(s: string) {
    forall x, y, z | 0 <= x < y < z < |s| ::
      !(IsSeparator(s[x]) && IsSeparator(s[y]) && IsSeparator(s[z]))
  }

  /**
   * A name is accepted exactly when it starts with two letters, holds only
   * letters, spaces and hyphens, and holds at most two spaces or hyphens.
   */
  lemma MatchesIffShape(s: string)
    ensures Matches(s) <==>
      |s| >= 2 && IsLetter(s[0]) && IsLetter(s[1]) &&
      (forall k | 0 <= k < |s| :: IsLetter(s[k]) || IsSeparator(s[k])) &&
      AtMostTwoSeparators(s)
  {
    var a := RunEnd(s, 0, IsLetter);
    if Matches(s) {
      if a < |s| {
        var b := RunEnd(s, a + 1, IsLetter);
        if b < |s| {
          var c := RunEnd(s, b + 1, IsLetter);
          assert forall k | 0 <= k < |s| && k != a && k != b :: IsLetter(s[k]);
        } else {
          assert forall k | 0 <= k < |s| && k != a :: IsLetter(s[k]);
        }
      }
    } else if |s| >= 2 && IsLetter(s[0]) && IsLetter(s[1]) &&
              (forall k | 0 <= k < |s| :: IsLetter(s[k]) || IsSeparator(s[k])) {
      assert All(s, 0, 2, IsLetter);
      assert a < |s| && IsSeparator(s[a]);
      var b := RunEnd(s, a + 1, IsLetter);
      assert b < |s| && IsSeparator(s[b]);
      var c := RunEnd(s, b + 1, IsLetter);
      assert c < |s| && IsSeparator(s[c]);
      assert !AtMostTwoSeparators(s);
    }
  }

  lemma AcceptedExamples()
    ensures Matches("Jo") && Matches("Jo Ann Smith") && Matches("Jo-")
  {
    MatchesIffPattern("Jo");
    assert Parse("Jo", 2, 2, 2, 2);
    MatchesIffPattern("Jo Ann Smith");
    assert Parse("Jo Ann Smith", 2, 3, 6, 7);
    MatchesIffPattern("Jo-");
    assert Parse("Jo-", 2, 3, 3, 3);
  }

  lemma RejectedExamples()
    ensures !Matches("J") && !Matches("123") && !Matches("Jo-A-B-C")
  {
    MatchesIffShape("J");
    MatchesIffShape("123");
    assert !IsLetter("123"[0]);
    var t := "Jo-A-B-C";
    MatchesIffShape(t);
    assert IsSeparator(t[2]) && IsSeparator(t[4]) && IsSeparator(t[6]);
  }
}
