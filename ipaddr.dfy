/**
 * `ipaddr` (hw.js:72-75): the JavaScript literal
 * '^[0-9]{1,3}\.[0-9]{1,3}\.[0-9]{1,3}\.[0-9]{1,3}$' holds the non-escape
 * `\.`, which stands for a bare `.` (section 12.9.4 of ECMA-262), so the
 * compiled pattern is ^[0-9]{1,3}.[0-9]{1,3}.[0-9]{1,3}.[0-9]{1,3}$ and each
 * separator is any character but a line terminator. There is no 0-255 check.
 */
module IpAddr {
  import opened Chars
  import opened Scan

  /** `[0-9]{1,3}` occupies s[i..j]. */
  ghost predicate Octet(s: string, i: int, j: int) {
    1 <= j - i <= 3 && All(s, i, j, IsDigit)
  }

  /** The pattern matches s with its three separators at a, b and c. */
  ghost predicate Parse(s: string, a: int, b: int, c: int) {
    0 <= a < b < c < |s| &&
    Octet(s, 0, a) && IsWildcard(s[a]) &&
    Octet(s, a + 1, b) && IsWildcard(s[b]) &&
    Octet(s, b + 1, c) && IsWildcard(s[c]) &&
    Octet(s, c + 1, |s|)
  }

  /** The language of the pattern, anchored at both ends. */
  ghost predicate Pattern(s: string) {
    exists a, b, c :: Parse(s, a, b, c)
  }

  /**
   * A backtracking matcher for n groups joined by single `.` characters
   * from i to the end of s: it tries the first group's lengths len,
   * len + 1, ..., 3 in turn; the characters before i + len - 1 are already
   * known to be digits.
   */
  function TryGroup(s: string, i: nat, len: nat, n: nat): bool
    requires i <= |s| && 1 <= len && 1 <= n && All(s, i, i + len - 1, IsDigit)
    decreases n, 4 - len
  {
    if len > 3 || i + len > |s| || !IsDigit(s[i + len - 1]) then
      false
    else
      (if n == 1 then i + len == |s|
       else i + len < |s| && IsWildcard(s[i + len]) && TryGroup(s, i + len + 1, 1, n - 1))
      || TryGroup(s, i, len + 1, n)
  }

  /** The predicate: four groups from the start. */
  function Matches(s: string): bool {
    TryGroup(s, 0, 1, 4)
  }

  /** What the matcher requires after a first group that ends at j. */
  function AfterGroup(s: string, j: nat, n: nat): bool
    requires j <= |s| && 1 <= n
  {
    if n == 1 then j == |s| else j < |s| && IsWildcard(s[j]) && TryGroup(s, j + 1, 1, n - 1)
  }

  /**
   * The matcher succeeds exactly when some first group of length len or more
   * is followed by the rest: its backtracking over lengths misses nothing.
   */
  lemma {:induction false} TryGroupIffSomeGroup(s: string, i: nat, len: nat, n: nat)
    requires i <= |s| && 1 <= len && 1 <= n && All(s, i, i + len - 1, IsDigit)
    ensures TryGroup(s, i, len, n) <==>
      exists j: nat | i + len <= j :: Octet(s, i, j) && AfterGroup(s, j, n)
    decreases 4 - len
  {
    if len > 3 || i + len > |s| || !IsDigit(s[i + len - 1]) {
      if j: nat :| i + len <= j && Octet(s, i, j) && AfterGroup(s, j, n) {
        assert false;
      }
    } else {
      var k := i + len;
      assert Octet(s, i, k);
      TryGroupIffSomeGroup(s, i, len + 1, n);
      if j: nat :| k < j && Octet(s, i, j) && AfterGroup(s, j, n) {
        assert IsDigit(s[k]);
      }
    }
  }

  /** Where the first of n groups from i ends, when the matcher succeeds. */
  lemma FirstGroup(s: string, i: nat, n: nat) returns (j: nat)
    requires i <= |s| && 1 <= n && TryGroup(s, i, 1, n)
    ensures Octet(s, i, j) && AfterGroup(s, j, n)
  {
    TryGroupIffSomeGroup(s, i, 1, n);
    j :| i + 1 <= j && Octet(s, i, j) && AfterGroup(s, j, n);
  }

  lemma MatchesIffPattern(s: string)
    ensures Matches(s) <==> Pattern(s)
  {
    if Matches(s) {
      var a := FirstGroup(s, 0, 4);
      var b := FirstGroup(s, a + 1, 3);
      var c := FirstGroup(s, b + 1, 2);
      var d := FirstGroup(s, c + 1, 1);
      assert Parse(s, a, b, c);
    }
    if Pattern(s) {
      var a, b, c :| Parse(s, a, b, c);
      TryGroupIffSomeGroup(s, c + 1, 1, 1);
      assert AfterGroup(s, |s|, 1);
      TryGroupIffSomeGroup(s, b + 1, 1, 2);
      assert AfterGroup(s, c, 2);
      TryGroupIffSomeGroup(s, a + 1, 1, 3);
      assert AfterGroup(s, b, 3);
      TryGroupIffSomeGroup(s, 0, 1, 4);
      assert AfterGroup(s, a, 4);
    }
  }

  /**
   * An accepted address is 7 to 15 characters long, begins and ends with a
   * digit, and holds nothing but digits and characters a `.` matches.
   */
  lemma AcceptedShape(s: string)
    requires Matches(s)
    ensures 7 <= |s| <= 15 && IsDigit(s[0]) && IsDigit(s[|s| - 1])
    ensures forall k | 0 <= k < |s| :: IsDigit(s[k]) || IsWildcard(s[k])
  {
    MatchesIffPattern(s);
    var a, b, c :| Parse(s, a, b, c);
    assert IsDigit(s[0]) && IsDigit(s[|s| - 1]);
    forall k | 0 <= k < |s| ensures IsDigit(s[k]) || IsWildcard(s[k]) {
      if k < a {
      } else if a < k < b {
        assert All(s, a + 1, b, IsDigit);
      } else if b < k < c {
        assert All(s, b + 1, c, IsDigit);
      } else if c < k {
        assert All(s, c + 1, |s|, IsDigit);
      }
    }
  }

  /** In a match, only the three separators may be something other than a digit. */
  lemma NonDigitsAreSeparators(s: string, a: int, b: int, c: int)
    requires Parse(s, a, b, c)
    ensures AtMostThreeNonDigits(s)
  {
    forall k | 0 <= k < |s| && k != a && k != b && k != c ensures IsDigit(s[k]) {
      if k < a {
        assert All(s, 0, a, IsDigit);
      } else if a < k < b {
        assert All(s, a + 1, b, IsDigit);
      } else if b < k < c {
        assert All(s, b + 1, c, IsDigit);
      } else if c < k {
        assert All(s, c + 1, |s|, IsDigit);
      }
    }
    forall w, x, y, z | 0 <= w < x < y < z < |s|
      ensures IsDigit(s[w]) || IsDigit(s[x]) || IsDigit(s[y]) || IsDigit(s[z])
    {
      if !IsDigit(s[w]) && !IsDigit(s[x]) && !IsDigit(s[y]) {
        assert x >= b && y >= c;
      }
    }
  }

  /** No four positions of s all hold something other than a digit. */
  ghost predicate AtMostThreeNonDigits(s: string) {
    forall w, x, y, z | 0 <= w < x < y < z < |s| ::
      IsDigit(s[w]) || IsDigit(s[x]) || IsDigit(s[y]) || IsDigit(s[z])
  }

  /** An accepted address holds at most three characters that are not digits. */
  lemma AcceptedNonDigits(s: string)
    requires Matches(s)
    ensures AtMostThreeNonDigits(s)
  {
    MatchesIffPattern(s);
    var a, b, c :| Parse(s, a, b, c);
    NonDigitsAreSeparators(s, a, b, c);
  }

  lemma AcceptedExamples()
    ensures Matches("1.2.3.4") && Matches("999.999.999.999")
    ensures Matches("1a2b3c4") && Matches("1234567")
  {
    MatchesIffPattern("1.2.3.4");
    assert Parse("1.2.3.4", 1, 3, 5);
    MatchesIffPattern("999.999.999.999");
    assert Parse("999.999.999.999", 3, 7, 11);
    MatchesIffPattern("1a2b3c4");
    assert Parse("1a2b3c4", 1, 3, 5);
    MatchesIffPattern("1234567");
    assert Parse("1234567", 1, 3, 5);
  }

  lemma RejectedExamples()
    ensures !Matches("1.2.3") && !Matches("1.2.3.4.5") && !Matches("1\n2.3.4")
  {
    if Matches("1.2.3") {
      AcceptedShape("1.2.3");
      assert false;
    }
    var t := "1.2.3.4.5";
    assert !IsDigit(t[1]) && !IsDigit(t[3]) && !IsDigit(t[5]) && !IsDigit(t[7]);
    if Matches(t) {
      AcceptedNonDigits(t);
      assert false;
    }
    var u := "1\n2.3.4";
    assert !IsDigit(u[1]) && !IsWildcard(u[1]);
    if Matches(u) {
      AcceptedShape(u);
      assert false;
    }
  }
}
