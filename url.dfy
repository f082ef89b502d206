/**
 * `url` (hw.js:63-66): the JavaScript literal
 * '^[http://|https://]{7,8}[a-zA-Z0-9]+\.[com|org|net|biz|info]{3,4}[/a-zA-Z0-9+]*[\.a-zA-Z0-9]*$'
 * compiles to
 * ^[http://|https://]{7,8}[a-zA-Z0-9]+.[com|org|net|biz|info]{3,4}[/a-zA-Z0-9+]*[.a-zA-Z0-9]*$ .
 * Both bracket lists with `|` are character classes, so the scheme is any 7
 * or 8 characters drawn from h t p : / | s and the top-level domain any 3 or
 * 4 drawn from c o m | r g n e t b i z f; the `.` after the host matches
 * any character but a line terminator.
 */
module Url {
  import opened Chars
  import opened Scan

  /** `[http://|https://]` */
  predicate IsSchemeChar(c: char) { c in {'h', 't', 'p', ':', '/', '|', 's'} }

  /** `[com|org|net|biz|info]` */
  predicate IsTldChar(c: char) {
    c in {'c', 'o', 'm', '|', 'r', 'g', 'n', 'e', 't', 'b', 'i', 'z', 'f'}
  }

  /** `[/a-zA-Z0-9+]` */
  predicate IsPathChar(c: char) { c == '/' || IsAlnum(c) || c == '+' }

  /** `[.a-zA-Z0-9]` */
  predicate IsFileChar(c: char) { c == '.' || IsAlnum(c) }

  /** `[/a-zA-Z0-9+]*[.a-zA-Z0-9]*$` occupies s[t..], the directories ending at p. */
  ghost predicate PathParse(s: string, t: int, p: int) {
    t <= p && All(s, t, p, IsPathChar) && All(s, p, |s|, IsFileChar)
  }

  /**
   * `[com|org|net|biz|info]{3,4}` spans s[i..t] and the path occupies the
   * rest, as PathParse(s, t, p) describes.
   */
  ghost predicate TailParse(s: string, i: int, t: int, p: int) {
    3 <= t - i <= 4 && All(s, i, t, IsTldChar) && PathParse(s, t, p)
  }

  /**
   * The pattern matches s with a scheme of k characters, the host from k to
   * the `.` at w, and the rest as TailParse(s, w + 1, t, p) describes.
   */
  ghost predicate Parse(s: string, k: int, w: int, t: int, p: int) {
    7 <= k <= 8 && k < w < |s| &&
    All(s, 0, k, IsSchemeChar) && All(s, k, w, IsAlnum) && IsWildcard(s[w]) &&
    TailParse(s, w + 1, t, p)
  }

  /** The language of the pattern, anchored at both ends. */
  ghost predicate Pattern(s: string) {
    exists k, w, t, p :: Parse(s, k, w, t, p)
  }

  /** Matches the path against s[t..]: the longest run of directory characters, then file characters to the end. */
  function Path(s: string, t: nat): bool
    requires t <= |s|
  {
    RunEnd(s, RunEnd(s, t, IsPathChar), IsFileChar) == |s|
  }

  /** Matches the top-level domain and the path against s[i..], four characters first, then three. */
  function Tail(s: string, i: nat): bool
    requires i <= |s|
  {
    var r := RunEnd(s, i, IsTldChar);
    (i + 4 <= r && Path(s, i + 4)) || (i + 3 <= r && Path(s, i + 3))
  }

  /**
   * Matches the rest of `[a-zA-Z0-9]+.` and the tail against s[j..], when
   * the characters before j belong to the host: one more host character
   * first, then s[j] as the `.` (backtracking).
   */
  function Host(s: string, j: nat): bool
    requires j <= |s|
    decreases |s| - j
  {
    j < |s| && ((IsAlnum(s[j]) && Host(s, j + 1)) || (IsWildcard(s[j]) && Tail(s, j + 1)))
  }

  /** The predicate as a scanner: an 8-character scheme first, then a 7-character one. */
  function Matches(s: string): bool {
    var r := RunEnd(s, 0, IsSchemeChar);
    (8 <= r && 8 < |s| && IsAlnum(s[8]) && Host(s, 9)) ||
    (7 <= r && 7 < |s| && IsAlnum(s[7]) && Host(s, 8))
  }

  /** Taking the longest run of directory characters first loses no match of the path. */
  lemma PathIffParse(s: string, t: nat)
    requires t <= |s|
    ensures Path(s, t) <==> exists p :: PathParse(s, t, p)
  {
    var r := RunEnd(s, t, IsPathChar);
    if Path(s, t) {
      assert PathParse(s, t, r);
    }
    if p :| PathParse(s, t, p) {
      assert p <= r;
      assert All(s, r, |s|, IsFileChar);
    }
  }

  lemma TailIffParse(s: string, i: nat)
    requires i <= |s|
    ensures Tail(s, i) <==> exists t, p :: TailParse(s, i, t, p)
  {
    var r := RunEnd(s, i, IsTldChar);
    if i + 4 <= |s| {
      PathIffParse(s, i + 4);
    }
    if i + 3 <= |s| {
      PathIffParse(s, i + 3);
    }
    if Tail(s, i) {
      var t := if i + 4 <= r && Path(s, i + 4) then i + 4 else i + 3;
      var p :| PathParse(s, t, p);
      assert TailParse(s, i, t, p);
    }
    if t, p :| TailParse(s, i, t, p) {
      assert t <= r;
    }
  }

  /** A `.` at w after host characters from j is found by the backtracking host matcher. */
  lemma {:induction false} HostOfDot(s: string, j: nat, w: nat)
    requires j <= w < |s| && All(s, j, w, IsAlnum) && IsWildcard(s[w]) && Tail(s, w + 1)
    ensures Host(s, j)
    decreases w - j
  {
    if j < w {
      HostOfDot(s, j + 1, w);
      assert IsAlnum(s[j]);
    }
  }

  /** When the host matcher succeeds from j, some `.` at w follows host characters from j. */
  lemma {:induction false} DotOfHost(s: string, j: nat) returns (w: nat)
    requires j <= |s| && Host(s, j)
    ensures j <= w < |s| && All(s, j, w, IsAlnum) && IsWildcard(s[w]) && Tail(s, w + 1)
    decreases |s| - j
  {
    if IsAlnum(s[j]) && Host(s, j + 1) {
      w := DotOfHost(s, j + 1);
      assert All(s, j, w, IsAlnum);
    } else {
      w := j;
    }
  }

  lemma MatchesOnlyPattern(s: string)
    requires Matches(s)
    ensures Pattern(s)
  {
    var r := RunEnd(s, 0, IsSchemeChar);
    var k := if 8 <= r && 8 < |s| && IsAlnum(s[8]) && Host(s, 9) then 8 else 7;
    var w := DotOfHost(s, k + 1);
    assert All(s, k, w, IsAlnum);
    TailIffParse(s, w + 1);
    var t, p :| TailParse(s, w + 1, t, p);
    assert Parse(s, k, w, t, p);
  }

  /** Given a parse, the tail matcher succeeds after the `.`. */
  lemma TailOfParse(s: string, k: int, w: int, t: int, p: int)
    requires Parse(s, k, w, t, p)
    ensures Tail(s, w + 1)
  {
    TailIffParse(s, w + 1);
  }

  lemma PatternOnlyMatches(s: string, k: int, w: int, t: int, p: int)
    requires Parse(s, k, w, t, p)
    ensures Matches(s)
  {
    TailOfParse(s, k, w, t, p);
    assert All(s, k + 1, w, IsAlnum);
    HostOfDot(s, k + 1, w);
    var r := RunEnd(s, 0, IsSchemeChar);
    assert k <= r && IsAlnum(s[k]);
  }

  lemma MatchesIffPattern(s: string)
    ensures Matches(s) <==> Pattern(s)
  {
    if Matches(s) {
      MatchesOnlyPattern(s);
    }
    if Pattern(s) {
      var k, w, t, p :| Parse(s, k, w, t, p);
      PatternOnlyMatches(s, k, w, t, p);
    }
  }

  /**
   * An accepted URL is at least 12 characters long (scheme, host, `.` and
   * top-level domain) and its first 7 characters come from the scheme class.
   */
  lemma AcceptedShape(s: string)
    requires Matches(s)
    ensures |s| >= 12 && All(s, 0, 7, IsSchemeChar)
  {
    MatchesIffPattern(s);
    var k, w, t, p :| Parse(s, k, w, t, p);
  }

  lemma AcceptedExamples()
    ensures Matches("http://a.com")
  {
    PatternOnlyMatches("http://a.com", 7, 8, 12, 12);
  }

  /** Subdirectories, then a file name. */
  lemma PathExample()
    ensures Matches("https://x.org/a/b.html")
  {
    PatternOnlyMatches("https://x.org/a/b.html", 8, 9, 13, 17);
  }

  /** The `.` after the host matches any character, and the classes accept any mix of their characters. */
  lemma WildcardExamples()
    ensures Matches("http://axcom") && Matches("ssssssshost.zzzz")
  {
    PatternOnlyMatches("http://axcom", 7, 8, 12, 12);
    PatternOnlyMatches("ssssssshost.zzzz", 7, 11, 16, 16);
  }

  lemma RejectedExamples()
    ensures !Matches("ftp://a.com") && !Matches("http://a.co.uk")
  {
    var t := "ftp://a.com";
    assert !IsSchemeChar(t[0]);
    if Matches(t) {
      AcceptedShape(t);
      assert false;
    }
    var u := "http://a.co.uk";
    assert !IsTldChar(u[11]) && !IsPathChar(u[11]);
    if Matches(u) {
      MatchesIffPattern(u);
      assert false;
    }
  }
}
