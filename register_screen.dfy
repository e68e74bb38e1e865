/**
 * The mobile sign-up screen: the form checks in their order, and the
 * register handler that calls `signUp` only for a form that passes them.
 */
module RegisterScreen {
  import opened Util
  import Validation

  // The alert after a successful sign-up.
  const SignedUpTitle := "Registration Successful"
  const CheckEmail := "Please check your email to verify your account."

  datatype RegisterForm = RegisterForm(fullName: string, email: string, phone: string, password: string, confirmPassword: string)

  const EmptyForm := RegisterForm("", "", "", "", "")

  const FillAll := "Please fill in all fields"
  const NoMatch := "Passwords do not match"
  const TooShort := "Password must be at least 6 characters"
  const BadPhone := "Please enter a valid Ethiopian phone number (+251XXXXXXXXX)"

  /** The minimum password length. */
  const MinPassword := 6

  /**
   * `validateForm`: the message of the first check that fails, or `None`
   * when the form may be sent. The confirmation is not among the fields
   * that must be filled in.
   */
  function ValidateForm(f: RegisterForm): (alert: Option<string>)
    ensures alert.None? <==>
      f.fullName != "" && f.email != "" && f.phone != "" && f.password != ""
      && f.password == f.confirmPassword && |f.password| >= MinPassword && Validation.IsValidPhone(f.phone)
    ensures alert == Some(FillAll) <==> f.fullName == "" || f.email == "" || f.phone == "" || f.password == ""
    ensures alert == Some(NoMatch) <==>
      f.fullName != "" && f.email != "" && f.phone != "" && f.password != "" && f.password != f.confirmPassword
    ensures alert == Some(TooShort) <==>
      f.fullName != "" && f.email != "" && f.phone != "" && f.password != "" && f.password == f.confirmPassword
      && |f.password| < MinPassword
    ensures alert == Some(BadPhone) <==>
      f.fullName != "" && f.email != "" && f.phone != "" && f.password == f.confirmPassword
      && |f.password| >= MinPassword && !Validation.IsValidPhone(f.phone)
  {
    if f.fullName == "" || f.email == "" || f.phone == "" || f.password == "" then Some(FillAll)
    else if f.password != f.confirmPassword then Some(NoMatch)
    else if |f.password| < MinPassword then Some(TooShort)
    else if !Validation.IsValidPhone(f.phone) then Some(BadPhone)
    else None
  }

  /** Only the four messages are ever shown. */
  lemma ValidateMessages(f: RegisterForm)
    ensures ValidateForm(f).Some? ==> ValidateForm(f).value in {FillAll, NoMatch, TooShort, BadPhone}
  {
  }

  /**
   * The order decides the message: a short, unconfirmed password with a bad
   * phone is reported as a mismatch, an empty confirmation is reported as a
   * mismatch, not as a missing field, and the e-mail's shape is not checked.
   */
  lemma FirstFailureWins()
    ensures ValidateForm(RegisterForm("Abebe", "a@b.et", "0911", "abc", "abd")) == Some(NoMatch)
    ensures ValidateForm(RegisterForm("Abebe", "a@b.et", "+251911223344", "secret", "")) == Some(NoMatch)
    ensures ValidateForm(RegisterForm("Abebe", "a@b.et", "+251911223344", "abc", "abc")) == Some(TooShort)
    ensures ValidateForm(RegisterForm("Abebe", "user", "+251911223344", "secret", "secret")).None?
  {
    assert Validation.IsValidPhone("+251911223344") by {
      assert "+251911223344"[..4] == "+251";
      assert "+251911223344"[4..] == "911223344";
    }
  }

  /** A call of `signUp`: the e-mail, the password and the profile data. */
  datatype SignUp = SignUp(email: string, password: string, fullName: string, phone: string)

  /** What `signUp` does: succeed, or throw (with the error's message, `None` for a non-`Error`). */
  datatype SignUpOutcome = SignedUp | SignUpFailed(message: Option<string>)

  class RegisterScreenState {
    var form: RegisterForm
    var loading: bool
    /** The `signUp` calls made so far. */
    var signUps: seq<SignUp>
    /** The last alert shown: its title and its message. */
    var alert: Option<(string, string)>

    constructor ()
      ensures form == EmptyForm && !loading && signUps == [] && alert == None
    {
      form := EmptyForm;
      loading := false;
      signUps := [];
      alert := None;
    }

    /** `handleInputChange` for one of the five fields; any other name changes no field the screen reads. */
    method HandleInputChange(field: string, value: string)
      modifies this`form
      ensures field == "fullName" ==> form == old(form).(fullName := value)
      ensures field == "email" ==> form == old(form).(email := value)
      ensures field == "phone" ==> form == old(form).(phone := value)
      ensures field == "password" ==> form == old(form).(password := value)
      ensures field == "confirmPassword" ==> form == old(form).(confirmPassword := value)
      ensures field !in {"fullName", "email", "phone", "password", "confirmPassword"} ==> form == old(form)
    {
      if field == "fullName" {
        form := form.(fullName := value);
      } else if field == "email" {
        form := form.(email := value);
      } else if field == "phone" {
        form := form.(phone := value);
      } else if field == "password" {
        form := form.(password := value);
      } else if field == "confirmPassword" {
        form := form.(confirmPassword := value);
      }
    }

    /** `handleRegister`; `outcome` is what `signUp` does if it is called. */
    method HandleRegister(outcome: SignUpOutcome)
      modifies this`loading, this`signUps, this`alert
      ensures ValidateForm(form).Some? ==>
        signUps == old(signUps) && alert == Some(("Error", ValidateForm(form).value)) && loading == old(loading)
      ensures ValidateForm(form).None? ==>
        signUps == old(signUps) + [SignUp(form.email, form.password, form.fullName, form.phone)] && !loading
      ensures ValidateForm(form).None? && outcome.SignedUp? ==>
        alert == Some((SignedUpTitle, CheckEmail))
      ensures ValidateForm(form).None? && outcome.SignUpFailed? ==>
        alert == Some(("Registration Failed", outcome.message.GetOr("An error occurred")))
    {
      var check := ValidateForm(form);
      if check.Some? {
        alert := Some(("Error", check.value));
        return;
      }
      loading := true;
      signUps := signUps + [SignUp(form.email, form.password, form.fullName, form.phone)];
      match outcome {
        case SignedUp =>
          alert := Some((SignedUpTitle, CheckEmail));
        case SignUpFailed(message) =>
          alert := Some(("Registration Failed", message.GetOr("An error occurred")));
      }
      loading := false;
    }
  }
}
