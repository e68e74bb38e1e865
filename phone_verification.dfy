/**
 * The mobile phone-verification screen: the resend countdown stepped by a
 * one-second interval and by the resend button, the length check on the
 * code, the resend label, and the display format of an Ethiopian number.
 */
module PhoneVerification {
  import opened Util
  import opened Text

  // The screen's alerts.
  const BadCode := "Please enter a valid 6-digit verification code"
  const PhoneVerified := "Your phone number has been verified successfully!"
  const VerifiedTitle := "Verification Successful"
  const CodeSent := "A new verification code has been sent to your phone."

  // ---------------------------------------------------------------
  // The display format `+251 DD DDD DDDD`

  /** `/(\+251)(\d{2})(\d{3})(\d{4})/` matches at position `i`: '+251' and nine ASCII digits. */
  predicate MatchAt(s: string, i: int)
  {
    0 <= i && i + 13 <= |s| && s[i..i + 4] == "+251" && AllDigits(s[i + 4..i + 13])
  }

  lemma MatchShift(s: string, j: int)
    requires s != [] && 0 <= j
    ensures MatchAt(s[1..], j) <==> MatchAt(s, j + 1)
  {
    if 0 <= j && j + 14 <= |s| {
      assert s[1..][j..j + 4] == s[j + 1..j + 5];
      assert s[1..][j + 4..j + 13] == s[j + 5..j + 14];
    }
  }

  /** The regular expression has no anchor: `replace` rewrites its leftmost match, wherever it is. */
  function FirstMatch(s: string): (r: Option<nat>)
    ensures r.Some? ==> MatchAt(s, r.value) && forall j :: 0 <= j < r.value ==> !MatchAt(s, j)
    ensures r.None? ==> forall j :: !MatchAt(s, j)
    decreases |s|
  {
    if |s| < 13 then None
    else if MatchAt(s, 0) then Some(0)
    else
      var r := FirstMatch(s[1..]);
      assert forall j :: 1 <= j ==> (MatchAt(s, j) <==> MatchAt(s[1..], j - 1)) by {
        forall j | 1 <= j ensures MatchAt(s, j) <==> MatchAt(s[1..], j - 1) { MatchShift(s, j - 1); }
      }
      if r.Some? then Some(r.value + 1) else None
  }

  /** `$1 $2 $3 $4` put in place of the nine digits after the match at `i`. */
  function Spaced(s: string, i: nat): string
    requires MatchAt(s, i)
  {
    s[..i + 4] + " " + s[i + 4..i + 6] + " " + s[i + 6..i + 9] + " " + s[i + 9..]
  }

  /** `formatPhoneNumber`: a number starting with '+251' has its first match spaced out; any other string is shown as it is. */
  function FormatPhoneNumber(phone: string): (r: string)
    ensures !StartsWith(phone, "+251") ==> r == phone
    ensures StartsWith(phone, "+251") && FirstMatch(phone).None? ==> r == phone
    ensures |r| == |phone| || |r| == |phone| + 3
  {
    if StartsWith(phone, "+251") then
      match FirstMatch(phone)
      case Some(i) => Spaced(phone, i)
      case None => phone
    else phone
  }

  /** A full local number, with anything after it, comes out as '+251 DD DDD DDDD' followed by the rest. */
  lemma FormatEthiopian(digits: string, rest: string)
    requires |digits| == 9 && AllDigits(digits)
    ensures FormatPhoneNumber("+251" + digits + rest) ==
      "+251 " + digits[..2] + " " + digits[2..5] + " " + digits[5..] + rest
  {
    var s := "+251" + digits + rest;
    assert s[..4] == "+251";
    assert s[4..13] == digits;
    assert MatchAt(s, 0);
    assert FormatPhoneNumber(s) == Spaced(s, 0);
    assert s[4..6] == digits[..2] && s[6..9] == digits[2..5] && s[9..] == digits[5..] + rest;
  }

  /** The example of the source comment. */
  lemma FormatExample(phone: string)
    requires phone == "+251911234567"
    ensures FormatPhoneNumber(phone) == "+251 91 123 4567"
  {
    var d := phone[4..];
    assert phone == "+251" + d + "";
    FormatEthiopian(d, "");
    assert d[..2] == "91" && d[2..5] == "123" && d[5..] == "4567";
  }

  /** A number that starts with '+251' but is not followed by nine digits there can still be rewritten further on. */
  lemma FormatLaterMatch(s: string)
    requires s == "+2519+251911234567"
    ensures FormatPhoneNumber(s) == "+2519+251 91 123 4567"
  {
    LaterMatchFirst(s);
    LaterMatchSpaced(s);
    assert s[..4] == "+251";
  }

  lemma LaterMatchFirst(s: string)
    requires s == "+2519+251911234567"
    ensures FirstMatch(s) == Some(5)
  {
    forall j | 0 <= j < 5
      ensures !MatchAt(s, j)
    {
      if j == 0 {
        assert s[4..13][1] == s[5] == '+';
      } else {
        assert s[j..j + 4][0] == s[j] != '+';
      }
    }
    assert s[5..9] == "+251" && s[9..18] == "911234567";
    assert MatchAt(s, 5);
  }

  lemma LaterMatchSpaced(s: string)
    requires s == "+2519+251911234567"
    ensures MatchAt(s, 5) && Spaced(s, 5) == "+2519+251 91 123 4567"
  {
    assert s[5..9] == "+251" && s[9..18] == "911234567";
    assert s[..9] == "+2519+251" && s[9..11] == "91" && s[11..14] == "123" && s[14..] == "4567";
    assert "+2519+251" + " " + "91" + " " + "123" + " " + "4567" == "+2519+251 91 123 4567";
  }

  /** `s` with every blank removed. */
  function StripSpaces(s: string): (r: string)
    ensures ' ' !in r && |r| <= |s|
    decreases |s|
  {
    if s == [] then [] else (if s[0] == ' ' then [] else [s[0]]) + StripSpaces(s[1..])
  }

  lemma {:induction false} StripAppend(a: string, b: string)
    ensures StripSpaces(a + b) == StripSpaces(a) + StripSpaces(b)
    decreases |a|
  {
    if a == [] {
      assert a + b == b;
    } else {
      assert (a + b)[0] == a[0];
      assert (a + b)[1..] == a[1..] + b;
      StripAppend(a[1..], b);
    }
  }

  lemma StripAround(x: string, y: string)
    ensures StripSpaces(x + " " + y) == StripSpaces(x) + StripSpaces(y)
  {
    StripAppend(x, " ");
    StripAppend(x + " ", y);
    StripBlank();
  }

  lemma StripBlank()
    ensures StripSpaces(" ") == ""
  {
    assert " "[1..] == "";
  }

  lemma StripFour(a: string, b: string, c: string, d: string)
    ensures StripSpaces(a + " " + b + " " + c + " " + d) == StripSpaces(a + b + c + d)
  {
    StripAround(a, b);
    StripAround(a + " " + b, c);
    StripAround(a + " " + b + " " + c, d);
    StripAppend(a, b);
    StripAppend(a + b, c);
    StripAppend(a + b + c, d);
  }

  /** Removing the blanks of the display gives the blanks-removed input: the format only adds blanks. */
  lemma FormatOnlyAddsSpaces(phone: string)
    ensures StripSpaces(FormatPhoneNumber(phone)) == StripSpaces(phone)
  {
    if StartsWith(phone, "+251") && FirstMatch(phone).Some? {
      var i := FirstMatch(phone).value;
      var a, b, c, d := phone[..i + 4], phone[i + 4..i + 6], phone[i + 6..i + 9], phone[i + 9..];
      assert phone == a + b + c + d;
      assert Spaced(phone, i) == a + " " + b + " " + c + " " + d;
      StripFour(a, b, c, d);
    }
  }

  // ---------------------------------------------------------------
  // The code check and the resend label

  /** `handleVerifyCode` goes on exactly for a code of six characters; they need not be digits. */
  predicate CodeAccepted(code: string)
  {
    |code| == 6
  }

  lemma CodeDigitsNotChecked()
    ensures CodeAccepted("abcdef") && CodeAccepted("------")
    ensures !CodeAccepted("12345") && !CodeAccepted("1234567")
  {
  }

  /** The seconds the countdown starts from. */
  const ResendSeconds := 60

  /** The resend button's text. */
  function ResendLabel(canResend: bool, timer: int): (text: string)
    ensures text == "Resend Code" <==> canResend
  {
    if canResend then "Resend Code" else "Resend Code (" + IntToString(timer) + "s)"
  }

  // ---------------------------------------------------------------
  // The countdown

  class VerificationScreen {
    var verificationCode: string
    var loading: bool
    var resendTimer: int
    var canResend: bool
    /** The interval of the mount effect is still set. */
    var ticking: bool
    /** The last alert shown: its title and its message. */
    var alert: Option<(string, string)>

    /** The timer stays within 0..60, resending is allowed exactly at 0, and a running interval means it is not yet allowed. */
    ghost predicate Valid()
      reads this
    {
      0 <= resendTimer <= ResendSeconds
      && (canResend <==> resendTimer == 0)
      && (ticking ==> !canResend)
    }

    /** The screen as it mounts: 60 seconds to go and the interval set. */
    constructor ()
      ensures Valid()
      ensures verificationCode == "" && !loading && resendTimer == ResendSeconds && !canResend && ticking && alert == None
    {
      verificationCode := "";
      loading := false;
      resendTimer := ResendSeconds;
      canResend := false;
      ticking := true;
      alert := None;
    }

    /** One second of the interval: the last second ends the countdown and clears the interval; an interval that is cleared does nothing. */
    method Tick()
      requires Valid()
      modifies this`resendTimer, this`canResend, this`ticking
      ensures Valid()
      ensures !old(ticking) ==> resendTimer == old(resendTimer) && canResend == old(canResend) && !ticking
      ensures old(ticking) && old(resendTimer) <= 1 ==> resendTimer == 0 && canResend && !ticking
      ensures old(ticking) && old(resendTimer) > 1 ==> resendTimer == old(resendTimer) - 1 && !canResend && ticking
    {
      if !ticking {
        return;
      }
      if resendTimer <= 1 {
        canResend := true;
        ticking := false;
        resendTimer := 0;
      } else {
        resendTimer := resendTimer - 1;
      }
    }

    /**
     * `handleResendCode`: nothing while resending is not allowed; otherwise
     * the timer is back at 60 and resending is closed again. The interval
     * was cleared and the effect does not run again, so the timer stays there.
     */
    method HandleResendCode()
      requires Valid()
      modifies this`resendTimer, this`canResend, this`alert
      ensures Valid()
      ensures !old(canResend) ==> resendTimer == old(resendTimer) && !canResend && alert == old(alert)
      ensures old(canResend) ==> resendTimer == ResendSeconds && !canResend && !ticking
      ensures old(canResend) ==> alert == Some(("Code Sent", CodeSent))
    {
      if !canResend {
        return;
      }
      resendTimer := ResendSeconds;
      canResend := false;
      alert := Some(("Code Sent", CodeSent));
    }

    /**
     * The resend with the countdown restarted, as the screen evidently
     * intends: the same checks and alert, and the interval set again.
     */
    method HandleResendCodeRestarting()
      requires Valid()
      modifies this`resendTimer, this`canResend, this`ticking, this`alert
      ensures Valid()
      ensures !old(canResend) ==> resendTimer == old(resendTimer) && !canResend && ticking == old(ticking) && alert == old(alert)
      ensures old(canResend) ==> resendTimer == ResendSeconds && !canResend && ticking
      ensures old(canResend) ==> alert == Some(("Code Sent", CodeSent))
    {
      if !canResend {
        return;
      }
      resendTimer := ResendSeconds;
      canResend := false;
      ticking := true;
      alert := Some(("Code Sent", CodeSent));
    }

    /** `handleVerifyCode`: a code of any other length is refused; the verification itself is a fixed wait that succeeds. */
    method HandleVerifyCode()
      modifies this`loading, this`alert
      ensures !CodeAccepted(verificationCode) ==>
        alert == Some(("Error", BadCode)) && loading == old(loading)
      ensures CodeAccepted(verificationCode) ==>
        alert == Some((VerifiedTitle, PhoneVerified)) && !loading
    {
      if !CodeAccepted(verificationCode) {
        alert := Some(("Error", BadCode));
        return;
      }
      loading := true;
      alert := Some((VerifiedTitle, PhoneVerified));
      loading := false;
    }
  }

  /** After a resend the countdown never moves again: every later tick leaves the timer at 60. */
  method ResendThenTicks(screen: VerificationScreen, ticks: nat)
    requires screen.Valid() && screen.canResend
    modifies screen
    ensures screen.Valid() && screen.resendTimer == ResendSeconds && !screen.canResend
  {
    screen.HandleResendCode();
    var k := 0;
    while k < ticks
      invariant screen.Valid() && screen.resendTimer == ResendSeconds && !screen.canResend && !screen.ticking
    {
      screen.Tick();
      k := k + 1;
    }
  }

  /** From the mount, sixty ticks open resending. */
  method SixtyTicks() returns (screen: VerificationScreen)
    ensures screen.Valid() && screen.canResend && screen.resendTimer == 0 && !screen.ticking
  {
    screen := new VerificationScreen();
    var k := 0;
    while k < ResendSeconds
      invariant 0 <= k <= ResendSeconds
      invariant screen.Valid() && screen.ticking == (k < ResendSeconds)
      invariant k < ResendSeconds ==> screen.resendTimer == ResendSeconds - k
      invariant k == ResendSeconds ==> screen.resendTimer == 0 && screen.canResend
    {
      screen.Tick();
      k := k + 1;
    }
  }

  /** With the countdown restarted, sixty ticks after a resend open resending again. */
  method ResendThenSixtyTicks(screen: VerificationScreen)
    requires screen.Valid() && screen.canResend
    modifies screen
    ensures screen.Valid() && screen.canResend && screen.resendTimer == 0 && !screen.ticking
  {
    screen.HandleResendCodeRestarting();
    var k := 0;
    while k < ResendSeconds
      invariant 0 <= k <= ResendSeconds
      invariant screen.Valid() && screen.ticking == (k < ResendSeconds)
      invariant k < ResendSeconds ==> screen.resendTimer == ResendSeconds - k
      invariant k == ResendSeconds ==> screen.resendTimer == 0 && screen.canResend
    {
      screen.Tick();
      k := k + 1;
    }
  }
}
