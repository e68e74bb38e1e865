/**
 * The form validators the admin portal and the mobile sign-up share: the
 * e-mail pattern `^[^\s@]+@[^\s@]+\.[^\s@]+$`, the Ethiopian phone pattern
 * `^\+251[0-9]{9}$`, and the new-user checks of the two admin pages.
 */
module Validation {
  import opened Util
  import opened Text

  // The alerts of the new-user checks.
  const MissingFields := "Please fill in all required fields (Name, Email, Phone)"
  const BadEmail := "Please enter a valid email address"
  const BadPhone := "Please enter a valid Ethiopian phone number (+251XXXXXXXXX)"

  /** A run of `[^\s@]`: no JavaScript whitespace and no '@'. */
  predicate NoSpaceOrAt(t: string)
  {
    forall k :: 0 <= k < |t| ==> !IsJsSpace(t[k]) && t[k] != '@'
  }

  /** `s` splits as `a@b.c` at '@' index `i` and '.' index `j`, with `a`, `b`, `c` non-empty runs of `[^\s@]`. */
  predicate EmailSplit(s: string, i: int, j: int)
  {
    0 < i && i + 1 < j && j + 1 < |s| && s[i] == '@' && s[j] == '.'
    && NoSpaceOrAt(s[..i]) && NoSpaceOrAt(s[i + 1..j]) && NoSpaceOrAt(s[j + 1..])
  }

  /** What the e-mail pattern accepts: some way to split the whole string as above. */
  ghost predicate EmailPattern(s: string)
  {
    exists i, j :: EmailSplit(s, i, j)
  }

  /** The index of the first `c` in `s`. */
  function IndexOf(s: string, c: char): (i: nat)
    requires c in s
    ensures i < |s| && s[i] == c && c !in s[..i]
  {
    if s[0] == c then 0
    else
      assert c in s[1..] by {
        var k :| 0 <= k < |s| && s[k] == c;
        assert s[1..][k - 1] == c;
      }
      var i := 1 + IndexOf(s[1..], c);
      assert s[..i] == [s[0]] + s[1..][..i - 1];
      i
  }

  /**
   * The e-mail check as a scan: exactly one '@', not first, no whitespace,
   * and after the '@' a '.' with at least one character on each side.
   */
  function IsValidEmail(s: string): bool
  {
    '@' in s &&
    var i := IndexOf(s, '@');
    var d := s[i + 1..];
    0 < i && NoSpaceOrAt(s[..i]) && NoSpaceOrAt(d) && |d| >= 3 && '.' in d[1..|d| - 1]
  }

  /** The scan accepts exactly the strings the pattern matches. */
  lemma EmailCheckIff(s: string)
    ensures IsValidEmail(s) <==> EmailPattern(s)
  {
    if '@' in s {
      EmailScanSound(s, IndexOf(s, '@'), IsValidEmail(s));
    }
  }

  lemma EmailScanSound(s: string, i: nat, ok: bool)
    requires '@' in s && i < |s| && s[i] == '@' && '@' !in s[..i]
    requires var d := s[i + 1..];
      ok == (0 < i && NoSpaceOrAt(s[..i]) && NoSpaceOrAt(d) && |d| >= 3 && '.' in d[1..|d| - 1])
    ensures ok <==> EmailPattern(s)
  {
    if ok {
      EmailScanFinds(s, i);
    }
    if EmailPattern(s) {
      var i', j :| EmailSplit(s, i', j);
      AtPosition(s, i, i');
      EmailSplitScans(s, i, j);
    }
  }

  /** A string the scan accepts has a split: at its '@' and at a '.' inside the part after it. */
  lemma EmailScanFinds(s: string, i: nat)
    requires i < |s| && s[i] == '@'
    requires var d := s[i + 1..];
      0 < i && NoSpaceOrAt(s[..i]) && NoSpaceOrAt(d) && |d| >= 3 && '.' in d[1..|d| - 1]
    ensures EmailPattern(s)
  {
    var d := s[i + 1..];
    var m := d[1..|d| - 1];
    var k :| 0 <= k < |m| && m[k] == '.';
    var j := i + 2 + k;
    assert s[j] == d[1 + k] == '.';
    assert s[i + 1..j] == d[..1 + k];
    assert s[j + 1..] == d[2 + k..];
    NoSpaceOrAtSlices(d, 1 + k);
    assert EmailSplit(s, i, j);
  }

  /** A split at the first '@' passes the scan. */
  lemma EmailSplitScans(s: string, i: nat, j: int)
    requires EmailSplit(s, i, j)
    ensures var d := s[i + 1..];
      0 < i && NoSpaceOrAt(s[..i]) && NoSpaceOrAt(d) && |d| >= 3 && '.' in d[1..|d| - 1]
  {
    var d := s[i + 1..];
    assert d == s[i + 1..j] + s[j..];
    assert s[j..] == ['.'] + s[j + 1..];
    NoSpaceOrAtJoin(s[i + 1..j], s[j..], s[j + 1..]);
    assert d[j - i - 1] == '.';
    assert d[1..|d| - 1][j - i - 2] == '.';
  }

  lemma NoSpaceOrAtSlices(d: string, n: nat)
    requires NoSpaceOrAt(d) && n <= |d|
    ensures NoSpaceOrAt(d[..n]) && (n < |d| ==> NoSpaceOrAt(d[n + 1..]))
  {
  }

  lemma NoSpaceOrAtJoin(a: string, b: string, c: string)
    requires NoSpaceOrAt(a) && NoSpaceOrAt(c) && b == ['.'] + c
    ensures NoSpaceOrAt(a + b)
  {
    assert !IsJsSpace('.');
    forall k | 0 <= k < |a + b|
      ensures !IsJsSpace((a + b)[k]) && (a + b)[k] != '@'
    {
      if k < |a| {
        assert (a + b)[k] == a[k];
      } else if k == |a| {
        assert (a + b)[k] == '.';
      } else {
        assert (a + b)[k] == c[k - |a| - 1];
      }
    }
  }

  /** Both indices name the first '@'. */
  lemma AtPosition(s: string, i: nat, i': int)
    requires i < |s| && s[i] == '@' && '@' !in s[..i]
    requires 0 < i' < |s| && s[i'] == '@' && NoSpaceOrAt(s[..i'])
    ensures i == i'
  {
  }

  /** A string the e-mail pattern accepts has its only '@' at the split point. */
  lemma OnlyAt(s: string, i: int, j: int, k: int)
    requires EmailSplit(s, i, j) && 0 <= k < |s| && s[k] == '@'
    ensures k == i
  {
  }

  /** `^\+251[0-9]{9}$`: '+251' and then exactly nine ASCII digits. */
  predicate IsValidPhone(s: string)
  {
    |s| == 13 && s[..4] == "+251" && AllDigits(s[4..])
  }

  /** A phone the pattern accepts is exactly '+251' followed by nine digits. */
  lemma PhoneShape(digits: string)
    ensures IsValidPhone("+251" + digits) <==> |digits| == 9 && AllDigits(digits)
  {
    var s := "+251" + digits;
    assert s[..4] == "+251" && s[4..] == digits;
  }

  /** A valid phone has exactly 13 characters, so an extra or a missing digit is rejected. */
  lemma PhoneLength(s: string)
    requires IsValidPhone(s)
    ensures |s| == 13 && !IsValidPhone(s + "0") && !IsValidPhone(s[..12])
  {
  }

  /**
   * The new-user checks of both admin pages, in their order: the alert of
   * the first failure, or `None` when the form may be submitted.
   */
  function CheckNewUser(fullName: string, email: string, phone: string): (alert: Option<string>)
    ensures alert.None? <==> fullName != "" && email != "" && phone != "" && IsValidEmail(email) && IsValidPhone(phone)
    ensures alert == Some(MissingFields) <==>
      fullName == "" || email == "" || phone == ""
    ensures alert == Some(BadEmail) <==>
      fullName != "" && email != "" && phone != "" && !IsValidEmail(email)
    ensures alert == Some(BadPhone) <==>
      fullName != "" && email != "" && phone != "" && IsValidEmail(email) && !IsValidPhone(phone)
  {
    if fullName == "" || email == "" || phone == "" then Some(MissingFields)
    else if !IsValidEmail(email) then Some(BadEmail)
    else if !IsValidPhone(phone) then Some(BadPhone)
    else None
  }

  /** With the name, e-mail and phone filled in, the form passes exactly when the e-mail matches the pattern and the phone is valid. */
  lemma CheckNewUserPattern(fullName: string, email: string, phone: string)
    requires fullName != "" && email != "" && phone != ""
    ensures CheckNewUser(fullName, email, phone).None? <==> EmailPattern(email) && IsValidPhone(phone)
  {
    EmailCheckIff(email);
  }

  /** An address like 'abebe@bisklet.et' passes; one with a space, a second '@' or no dot after the '@' does not. */
  lemma EmailExamples()
    ensures IsValidEmail("a@b.et")
    ensures !IsValidEmail("a b@c.et") && !IsValidEmail("a@b@c.et") && !IsValidEmail("a@bet")
  {
    assert EmailSplit("a@b.et", 1, 3);
    EmailCheckIff("a@b.et");
    NoAt("a b@c.et");
    EmailCheckIff("a b@c.et");
    OneAt("a@b@c.et");
    EmailCheckIff("a@b@c.et");
    NoDot("a@bet");
    EmailCheckIff("a@bet");
  }

  lemma NoAt(s: string)
    requires s == "a b@c.et"
    ensures !EmailPattern(s)
  {
    if i, j :| EmailSplit(s, i, j) {
      assert s[..i][1] == ' ';
    }
  }

  lemma OneAt(s: string)
    requires s == "a@b@c.et"
    ensures !EmailPattern(s)
  {
    if i, j :| EmailSplit(s, i, j) {
      OnlyAt(s, i, j, 1);
      OnlyAt(s, i, j, 3);
    }
  }

  lemma NoDot(s: string)
    requires s == "a@bet"
    ensures !EmailPattern(s)
  {
  }
}
