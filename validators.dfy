/**
 * The six validators together (hw.js:6-76): every pattern is anchored by
 * `^` and its first element is a non-empty class that holds no space.
 */
module Validators {
  import Name
  import Email
  import Address
  import Username
  import Url
  import IpAddr

  /** All six validators reject the empty string and any string that starts with a space. */
  lemma RejectEmptyOrLeadingSpace(s: string)
    requires |s| == 0 || s[0] == ' '
    ensures !Name.Matches(s) && !Email.Matches(s) && !Address.Matches(s)
    ensures !Username.Matches(s) && !Url.Matches(s) && !IpAddr.Matches(s)
  {
    if Name.Matches(s) {
      Name.MatchesIffShape(s);
      assert false;
    }
    if Email.Matches(s) {
      var a := Email.AcceptedShape(s);
      assert false;
    }
    if Address.Matches(s) {
      var a := Address.AcceptedShape(s);
      assert false;
    }
    if Username.Matches(s) {
      Username.MatchesIffShape(s);
      assert false;
    }
    if Url.Matches(s) {
      Url.AcceptedShape(s);
      assert false;
    }
    if IpAddr.Matches(s) {
      IpAddr.AcceptedShape(s);
      assert false;
    }
  }
}
