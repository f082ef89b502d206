# hw.js validators in Dafny

`hw.js` exports string predicates. Each one builds a fixed regular expression anchored at both ends and returns whether the whole input matches it. This project models six of them: `name`, `email`, `address`, `username`, `url` and `ipaddr`. Each predicate is its own module, and each module holds:

- a ghost predicate `Pattern`, the language of the regular expression, written with one index per split point. A `Parse` predicate gives the indices names.
- a function `Matches`, a recursive scanner over `seq<char>`. It takes greedy runs the way the engine does, and it backtracks where the pattern makes backtracking matter.
- a lemma `MatchesIffPattern` proving that the two agree on every string. Lemmas then state what an accepted string looks like, together with accepted and rejected examples.

Two modules are shared:

- `Chars` holds the ASCII classes and the regular-expression `.`.
- `Scan` holds the `All` predicate over a span and `RunEnd`, the end of the longest run of a class. `RunEnd`'s contract characterises that run exactly.

`Validators` proves a property common to all six.

## Behaviour of the code

The model follows the code where the doc comments or the usual reading of the patterns say otherwise:

- **`\.` is a wildcard.** The patterns are JavaScript string literals. There `'\.'` is a non-escape and stands for a bare `.`, as section 12.9.4 of ECMA-262 specifies. Outside brackets, that `.` matches any character except a line terminator (`\n`, `\r`, U+2028 and U+2029). This applies to the separators in `ipaddr`, the two dots after the `@` in `email` and the dot after the host in `url`. So `ipaddr("1a2b3c4")` and `email("a@bcd")` both hold. Inside brackets, `.` is a literal full stop.
- **Bracket lists with `|` are character classes.**
  - In `address`, `[Ave|St|Lane|Blvd]` is the set A v e | S t L a n B l d. It contains `|` and no space. "Park", which the comment lists, is rejected.
  - In `url`, the scheme is any 7 or 8 characters from h t p : / | s, and the top-level domain is any 3 or 4 characters from c o m | r g n e t b i z f.
- **`name` accepts spaces.** Its separator class `[ -]` holds a space as well as the hyphen the comment mentions. A trailing separator, as in "Jo-", is accepted.
- **The first domain label of `email` may be upper case.** `[a-zA-Z]+` allows it, so `email("a@B.com")` holds.
- **`username` allows 16 characters.** `username("abcdefghijklmnop")`, which is 16 characters long, holds. Only a 17th character makes it fail.

JavaScript strings are sequences of UTF-16 code units, and Dafny's `char` is a Unicode scalar value. A `.` matches a single code unit. A character outside the Basic Multilingual Plane is two code units, and every `.` in these patterns is followed by an ASCII-only class or by the end of the string. Such a character can therefore never be matched by a `.` as a whole. The model accordingly limits `.` to characters below U+10000 (`Chars.IsWildcard`). With that limit, the model gives the code's answer for every well-formed string.

## Model

| member | source | states |
|---|---|---|
| Scan.RunEnd | hw.js:12 | a greedy run of a class from i ends at the first position outside the class, and a span from i lies entirely in the class exactly when it ends no later than that position |
| Name.MatchesIffPattern | hw.js:11-14 | the scanner accepts exactly the strings of `^[a-zA-Z]{2,}[ -]?[a-zA-Z]*[ -]?[a-zA-Z]*$` |
| Name.MatchesIffShape | hw.js:12 | a name is accepted exactly when its first two characters are letters, every character is a letter, space or hyphen, and at most two are spaces or hyphens |
| Name.AcceptedExamples | hw.js:12 | "Jo", "Jo Ann Smith" and "Jo-" are accepted |
| Name.RejectedExamples | hw.js:12 | "J", "123" and "Jo-A-B-C" are rejected |
| Email.SuffixIffParse | hw.js:37 | the greedy scan of `[a-z]+.?[a-z]*$` succeeds exactly when some split of the rest matches it |
| Email.DomainOfDot | hw.js:37 | if a `.` follows letters, the backtracking scan over the first domain label finds it |
| Email.DotOfDomain | hw.js:37 | when the backtracking domain scan succeeds, some `.` follows letters and the suffix matches after it |
| Email.MatchesOnlyPattern | hw.js:36-39 | every string the scanner accepts matches the email pattern |
| Email.PatternOnlyMatches | hw.js:36-39 | every string that matches the email pattern is accepted by the scanner |
| Email.MatchesIffPattern | hw.js:36-39 | the scanner accepts exactly the strings of `^[a-zA-Z0-9_.]+@[a-zA-Z]+.[a-z]+.?[a-z]*$` |
| Email.AcceptedShape | hw.js:37 | in an accepted address, the text before the first `@` is a non-empty run of letters, digits, `_` and `.`; the text after it is at least 3 characters long and starts with a letter |
| Email.AcceptedExamples | hw.js:37 | "a.b_c@example.com" is accepted |
| Email.TwoLabelExample | hw.js:37 | "x@mail.co.uk" is accepted |
| Email.WildcardExamples | hw.js:37 | "a@bcd" and "a@b@c" are accepted, because a `.` matches any character |
| Email.UpperCaseDomainExample | hw.js:37 | "a@B.com" is accepted |
| Email.RejectedExamples | hw.js:37 | "a@b", "@a.com", "a@1.com" and "a b@c.com" are rejected |
| Address.RestIffStreet | hw.js:47 | the backtracking scan of the street words, the optional space and the 2-to-4-character suffix succeeds exactly when some split of the rest matches it |
| Address.MatchesOnlyPattern | hw.js:46-49 | every string the scanner accepts matches the address pattern |
| Address.PatternOnlyMatches | hw.js:46-49 | every string that matches the address pattern is accepted by the scanner |
| Address.MatchesIffPattern | hw.js:46-49 | the scanner accepts exactly the strings of the address pattern |
| Address.AcceptedShape | hw.js:47 | an accepted address starts with one or more digits, a space and an upper-case letter, and its last two characters lie in the suffix class A v e S t L a n B l d plus the vertical bar |
| Address.AcceptedExamples | hw.js:47 | "12 Oak Ave" and "7 Elm St" are accepted |
| Address.SuffixClassExamples | hw.js:47 | "12 Main Street" and "12 Oak" followed by two vertical bars are accepted, because the suffix is any 2 to 4 characters of the class |
| Address.RejectedExamples | hw.js:47 | "Oak Ave", "12 Oak Park" and "12 oak Ave" are rejected |
| Username.MatchesIffPattern | hw.js:54-57 | the scanner accepts exactly the strings of `^[a-zA-Z]{1}[a-zA-Z0-9]{3,15}$` |
| Username.MatchesIffShape | hw.js:55 | a username is accepted exactly when it is 4 to 16 characters long, starts with a letter and continues with letters and digits only |
| Username.Examples | hw.js:55 | "abcd", "a1b2c3d4e5f6g7h8" and the 16-character "abcdefghijklmnop" are accepted; "ab1", "1abcd", a 17-character string and "ab_cd" are rejected |
| Url.PathIffParse | hw.js:64 | the greedy scan of `[/a-zA-Z0-9+]*[.a-zA-Z0-9]*$` succeeds exactly when some split of the rest matches it |
| Url.TailIffParse | hw.js:64 | the scan of the top-level domain (4 characters, then 3) and the path succeeds exactly when some split matches them |
| Url.HostOfDot | hw.js:64 | if a `.` follows host characters, the backtracking host scan finds it |
| Url.DotOfHost | hw.js:64 | when the backtracking host scan succeeds, some `.` follows host characters and the tail matches after it |
| Url.MatchesOnlyPattern | hw.js:63-66 | every string the scanner accepts matches the URL pattern |
| Url.TailOfParse | hw.js:64 | in a match of the pattern, the tail scan succeeds after the host's `.` |
| Url.PatternOnlyMatches | hw.js:63-66 | every string that matches the URL pattern is accepted by the scanner |
| Url.MatchesIffPattern | hw.js:63-66 | the scanner accepts exactly the strings of the URL pattern |
| Url.AcceptedShape | hw.js:64 | an accepted URL is at least 12 characters long and its first 7 characters lie in the scheme class h t p : / s plus the vertical bar |
| Url.AcceptedExamples | hw.js:64 | "http://a.com" is accepted |
| Url.PathExample | hw.js:64 | "https://x.org/a/b.html" is accepted |
| Url.WildcardExamples | hw.js:64 | "http://axcom" and "ssssssshost.zzzz" are accepted |
| Url.RejectedExamples | hw.js:64 | "ftp://a.com" and "http://a.co.uk" are rejected |
| IpAddr.TryGroupIffSomeGroup | hw.js:73 | the backtracking matcher succeeds exactly when some first group of 1 to 3 digits, at least as long as the length being tried, is followed by the rest of the groups |
| IpAddr.FirstGroup | hw.js:73 | when the matcher succeeds, it yields a first group of 1 to 3 digits that is followed by the rest |
| IpAddr.MatchesIffPattern | hw.js:72-75 | the scanner accepts exactly the strings of `^[0-9]{1,3}.[0-9]{1,3}.[0-9]{1,3}.[0-9]{1,3}$` |
| IpAddr.AcceptedShape | hw.js:73 | an accepted address is 7 to 15 characters long, begins and ends with a digit, and holds only digits and characters a `.` matches |
| IpAddr.NonDigitsAreSeparators | hw.js:73 | in a match, only the three separators may be non-digits |
| IpAddr.AcceptedNonDigits | hw.js:73 | an accepted address holds at most three non-digit characters |
| IpAddr.AcceptedExamples | hw.js:73 | "1.2.3.4", "999.999.999.999", "1a2b3c4" and "1234567" are accepted (no range check on groups) |
| IpAddr.RejectedExamples | hw.js:73 | "1.2.3", "1.2.3.4.5" and "1\n2.3.4" are rejected |
| Validators.RejectEmptyOrLeadingSpace | hw.js:11-75 | all six predicates reject the empty string and any string whose first character is a space |

## Left out

- `phone` (hw.js:21-30):
  - Its literal holds `'\('`, which becomes a bare `(`, so the pattern begins `^(?([0-9])`. That is not valid group syntax under section 22.2.1 of ECMA-262, so `new RegExp` throws a SyntaxError on every call.
  - Even with a valid pattern, the loop at hw.js:26-28 starts at index 1 of a one-element array, so `count` stays 0 and the result would always be false.
  - There is nothing here to model as a language.
- The coercion of non-string arguments to strings by `RegExp.prototype.test` is left out. Inputs are `seq<char>` only.
- Strings holding lone surrogates are left out, because a Dafny `char` cannot hold one.
- The `module.exports` object (hw.js:6) is only wiring.
- The engine's order of trying alternatives is not modelled. Each scanner decides the same language, and every predicate returns only a boolean.
- Each scanner is pure recursion: the source has no loops or state in these six predicates.
