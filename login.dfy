/**
 * The admin portal's sign-in: the ten demo accounts, the user record a
 * demo account is given, the checks a database account goes through in
 * their order, and the button that fills in a demo account.
 */
module Login {
  import opened Util
  import opened Text
  import UserPermissions

  datatype DemoAccount = DemoAccount(email: string, role: string, userType: string, description: string)

  /** `demoAccounts`. */
  function DemoAccounts(): seq<DemoAccount>
  {
    [
      DemoAccount("admin@bikeshare.et", "Super Admin", "admin", "Full system access"),
      DemoAccount("ops.manager@bisklet.et", "Operations Manager", "admin", "Bike & staff management"),
      DemoAccount("finance.manager@bisklet.et", "Finance Manager", "admin", "Financial reports & billing"),
      DemoAccount("support@bisklet.et", "Customer Support", "admin", "User support & communication"),
      DemoAccount("tech1@bisklet.et", "Field Technician", "staff", "Bike maintenance"),
      DemoAccount("student1@aau.edu.et", "Student", "end_user", "University student account"),
      DemoAccount("employee1@ethiopianairlines.com", "Corporate User", "end_user", "Corporate employee"),
      DemoAccount("premium1@example.com", "Premium Customer", "end_user", "Monthly subscription"),
      DemoAccount("partner1@combanketh.et", "Payment Partner", "partner", "Bank partnership"),
      DemoAccount("official1@addisababa.gov.et", "Government Official", "partner", "City administration")
    ]
  }

  /** The first account of `accounts` with exactly this e-mail. */
  function FindIn(accounts: seq<DemoAccount>, email: string): (r: Option<DemoAccount>)
    ensures r.Some? ==> r.value in accounts && r.value.email == email
    ensures r.None? <==> forall i :: 0 <= i < |accounts| ==> accounts[i].email != email
    decreases |accounts|
  {
    if accounts == [] then None
    else if accounts[0].email == email then Some(accounts[0])
    else
      assert forall i :: 1 <= i < |accounts| ==> accounts[i] == accounts[1..][i - 1];
      FindIn(accounts[1..], email)
  }

  /** `demoAccounts.find(account => account.email === email)`. */
  function FindDemo(email: string): (r: Option<DemoAccount>)
    ensures r.Some? ==> r.value in DemoAccounts() && r.value.email == email
    ensures r.None? <==> forall a :: a in DemoAccounts() ==> a.email != email
  {
    FindIn(DemoAccounts(), email)
  }

  // ---------------------------------------------------------------
  // The demo role: lower case, whitespace runs to '_'

  /** `s` without its leading run of whitespace. */
  function DropSpaceRun(s: string): (r: string)
    ensures |r| <= |s| && (s != [] && IsJsSpace(s[0]) ==> |r| < |s|)
    ensures r == [] || !IsJsSpace(r[0])
    decreases |s|
  {
    if s != [] && IsJsSpace(s[0]) then DropSpaceRun(s[1..]) else s
  }

  /** `s.replace(/\s+/g, '_')`: each maximal run of whitespace becomes one '_'. */
  function Underscored(s: string): (r: string)
    ensures forall i :: 0 <= i < |r| ==> !IsJsSpace(r[i])
    decreases |s|
  {
    if s == [] then []
    else if IsJsSpace(s[0]) then "_" + Underscored(DropSpaceRun(s))
    else [s[0]] + Underscored(s[1..])
  }

  predicate SpaceFree(s: string)
  {
    forall i :: 0 <= i < |s| ==> !IsJsSpace(s[i])
  }

  /** A part without whitespace passes through unchanged. */
  lemma {:induction false} UnderscoredKeeps(a: string, t: string)
    requires SpaceFree(a)
    ensures Underscored(a + t) == a + Underscored(t)
    decreases |a|
  {
    if a != [] {
      assert (a + t)[0] == a[0];
      assert (a + t)[1..] == a[1..] + t;
      UnderscoredKeeps(a[1..], t);
    } else {
      assert a + t == t;
    }
  }

  /** Two words with one blank between them are joined by '_'. */
  lemma UnderscoredTwoWords(a: string, b: string)
    requires SpaceFree(a) && SpaceFree(b) && b != []
    ensures Underscored(a + " " + b) == a + "_" + b
  {
    assert a + " " + b == a + (" " + b);
    UnderscoredKeeps(a, " " + b);
    assert (" " + b)[1..] == b;
    assert DropSpaceRun(b) == b;
    assert DropSpaceRun(" " + b) == b;
    UnderscoredKeeps(b, []);
    assert b + [] == b;
  }

  /** The `user_role` a demo account gets. */
  function RoleSlug(role: string): (slug: string)
    ensures SpaceFree(slug)
  {
    Underscored(Lower(role))
  }

  lemma LowerAround(a: string, b: string)
    ensures Lower(a + " " + b) == Lower(a) + " " + Lower(b)
  {
    var l, r := Lower(a + " " + b), Lower(a) + " " + Lower(b);
    assert |l| == |r|;
    forall i | 0 <= i < |l| ensures l[i] == r[i] {
      if i < |a| {
        assert (a + " " + b)[i] == a[i];
      } else if i == |a| {
        assert (a + " " + b)[i] == ' ';
      } else {
        assert (a + " " + b)[i] == b[i - |a| - 1];
      }
    }
  }

  lemma LowerSpaceFree(a: string)
    requires SpaceFree(a)
    ensures SpaceFree(Lower(a))
  {
  }

  /** A role of two words with one blank between them becomes the two words in lower case joined by '_'. */
  lemma SlugOfTwoWords(a: string, b: string)
    requires SpaceFree(a) && SpaceFree(b) && b != []
    ensures RoleSlug(a + " " + b) == Lower(a) + "_" + Lower(b)
  {
    LowerAround(a, b);
    LowerSpaceFree(a);
    LowerSpaceFree(b);
    UnderscoredTwoWords(Lower(a), Lower(b));
  }

  lemma SlugSuperAdmin()
    ensures RoleSlug("Super Admin") == "super_admin"
  {
    SuperAdminParts();
    SlugOfTwoWords("Super", "Admin");
  }

  lemma SuperAdminParts()
    ensures "Super Admin" == "Super" + " " + "Admin"
    ensures Lower("Super") == "super" && Lower("Admin") == "admin"
    ensures "super" + "_" + "admin" == "super_admin"
  {
  }

  lemma SlugCustomerSupport()
    ensures RoleSlug("Customer Support") == "customer_support"
  {
    CustomerSupportParts();
    SlugOfTwoWords("Customer", "Support");
  }

  lemma CustomerSupportParts()
    ensures "Customer Support" == "Customer" + " " + "Support"
    ensures Lower("Customer") == "customer" && Lower("Support") == "support"
    ensures "customer" + "_" + "support" == "customer_support"
  {
  }

  /**
   * The demo Customer Support account is of type 'admin', while the
   * permissions table gives its role, 'customer_support', the type 'staff'.
   */
  lemma CustomerSupportType()
    ensures DemoAccounts()[3].role == "Customer Support" && DemoAccounts()[3].userType == "admin"
    ensures UserPermissions.RoleDefinitions()["customer_support"].userType == "staff"
  {
  }

  // ---------------------------------------------------------------
  // The user record

  datatype Organization = Organization(name: Option<string>, nameAmharic: Option<string>)

  /** The user record handed to `onLogin`. */
  datatype UserRecord = UserRecord(
    id: string, email: string, fullName: string, fullNameAmharic: Option<string>,
    userRole: string, userType: string, verified: bool, status: string,
    organizationId: Option<string>, permissions: seq<string>, organization: Option<Organization>)

  /** The organization name an end-user demo account gets from its description. */
  function DemoOrgName(description: string): (name: Option<string>)
    ensures Contains(description, "University") ==> name == Some("Addis Ababa University")
    ensures !Contains(description, "University") && Contains(description, "Corporate") ==> name == Some("Ethiopian Airlines")
    ensures name.None? <==> !Contains(description, "University") && !Contains(description, "Corporate")
  {
    if Contains(description, "University") then Some("Addis Ababa University")
    else if Contains(description, "Corporate") then Some("Ethiopian Airlines")
    else None
  }

  /** The mock record of a demo account; `now` is `Date.now()`. */
  function DemoUser(a: DemoAccount, now: int): (u: UserRecord)
    ensures u.email == a.email && u.fullName == a.role && u.userRole == RoleSlug(a.role) && u.userType == a.userType
    ensures u.verified && u.status == "active" && u.permissions == [] && u.fullNameAmharic.None?
    ensures u.organizationId.Some? <==> a.userType == "end_user"
    ensures u.organization.Some? <==> a.userType == "end_user"
    ensures u.organization.Some? ==> u.organization.value == Organization(DemoOrgName(a.description), None)
    ensures u.id == "demo-" + a.userType + "-" + IntToString(now)
  {
    var endUser := a.userType == "end_user";
    UserRecord(
      "demo-" + a.userType + "-" + IntToString(now), a.email, a.role, None,
      RoleSlug(a.role), a.userType, true, "active",
      if endUser then Some("demo-org-id") else None, [],
      if endUser then Some(Organization(DemoOrgName(a.description), None)) else None)
  }

  lemma UniversityExample()
    ensures DemoOrgName("University student account") == Some("Addis Ababa University")
  {
    assert StartsWith("University student account", "University");
  }

  lemma CorporateExample()
    ensures Contains("Corporate employee", "Corporate")
  {
    assert StartsWith("Corporate employee", "Corporate");
  }

  // ---------------------------------------------------------------
  // The sign-in decision

  /** What the `users` lookup by e-mail gives: an error, or the row if there is one. */
  datatype Lookup = LookupFailed | Found(row: Option<UserRecord>)

  /** How a submit ends: the success text and the user `onLogin` will get, or the error text. */
  datatype Outcome = LoggedIn(welcome: string, user: UserRecord) | Refused(message: string)

  const EnterPassword := "Please enter a password."
  const DatabaseError := "Database connection error. Please try again."
  const NotFound := "User not found. Please check your email address or use a demo account."

  function Welcome(name: string): string
  {
    "Welcome " + name + "! Logging you in..."
  }

  /** A demo account signs in with any non-empty password. */
  function DemoOutcome(a: DemoAccount, password: string, now: int): (o: Outcome)
    ensures o.Refused? <==> password == ""
    ensures o.Refused? ==> o.message == EnterPassword
    ensures o.LoggedIn? ==> o.user == DemoUser(a, now) && o.welcome == Welcome(a.role)
  {
    if password == "" then Refused(EnterPassword) else LoggedIn(Welcome(a.role), DemoUser(a, now))
  }

  /**
   * A database account, checked in order: the lookup failed, there is no
   * such user, the account is not active, the password is empty. The
   * password is never compared with anything stored.
   */
  function DatabaseOutcome(lookup: Lookup, password: string): (o: Outcome)
    ensures lookup.LookupFailed? ==> o == Refused(DatabaseError)
    ensures lookup == Found(None) ==> o == Refused(NotFound)
    ensures lookup.Found? && lookup.row.Some? && lookup.row.value.status != "active" ==>
      o == Refused("Account is " + lookup.row.value.status + ". Please contact support.")
    ensures lookup.Found? && lookup.row.Some? && lookup.row.value.status == "active" && password == "" ==>
      o == Refused(EnterPassword)
    ensures o.LoggedIn? <==> lookup.Found? && lookup.row.Some? && lookup.row.value.status == "active" && password != ""
    ensures o.LoggedIn? ==> o.user == lookup.row.value && o.welcome == Welcome(lookup.row.value.fullName)
  {
    match lookup
    case LookupFailed => Refused(DatabaseError)
    case Found(None) => Refused(NotFound)
    case Found(Some(row)) =>
      if row.status != "active" then Refused("Account is " + row.status + ". Please contact support.")
      else if password == "" then Refused(EnterPassword)
      else LoggedIn(Welcome(row.fullName), row)
  }

  /** The outcome of a submit: a demo e-mail is decided without the lookup, any other by it. */
  function SubmitOutcome(demo: Option<DemoAccount>, password: string, now: int, lookup: Lookup): (o: Outcome)
    ensures demo.Some? ==> o == DemoOutcome(demo.value, password, now)
    ensures demo.None? ==> o == DatabaseOutcome(lookup, password)
  {
    match demo
    case Some(a) => DemoOutcome(a, password, now)
    case None => DatabaseOutcome(lookup, password)
  }

  /** Any two non-empty passwords give the same outcome, for a demo account and for a database account alike. */
  lemma PasswordNeverCompared(demo: Option<DemoAccount>, p1: string, p2: string, now: int, lookup: Lookup)
    requires p1 != "" && p2 != ""
    ensures SubmitOutcome(demo, p1, now, lookup) == SubmitOutcome(demo, p2, now, lookup)
  {
  }

  /** A missing user, and an account that is not active, are reported before an empty password. */
  lemma CheckOrder(row: UserRecord)
    requires row.status != "active"
    ensures DatabaseOutcome(Found(None), "") == Refused(NotFound)
    ensures DatabaseOutcome(Found(Some(row)), "") == Refused("Account is " + row.status + ". Please contact support.")
    ensures DatabaseOutcome(Found(Some(row)), "") != Refused(EnterPassword)
  {
    assert |"Account is " + row.status + ". Please contact support."| > |EnterPassword|;
  }

  class LoginPage {
    /** The demo accounts the page checks first. */
    const accounts: seq<DemoAccount>
    var email: string
    var password: string
    var loading: bool
    var error: string
    var success: string
    /** The e-mails looked up in `users`, in order. */
    var lookups: seq<string>
    /** The user `onLogin` is called with after the delay, once a sign-in succeeds. */
    var pendingLogin: Option<UserRecord>

    constructor ()
      ensures accounts == DemoAccounts()
      ensures email == "" && password == "" && !loading && error == "" && success == ""
      ensures lookups == [] && pendingLogin == None
    {
      accounts := DemoAccounts();
      email := "";
      password := "";
      loading := false;
      error := "";
      success := "";
      lookups := [];
      pendingLogin := None;
    }

    /**
     * `handleSubmit`; `now` is `Date.now()` and `lookup` what the query
     * returns if it is made. A demo e-mail never reaches the database.
     */
    method HandleSubmit(now: int, lookup: Lookup)
      modifies this`loading, this`error, this`success, this`lookups, this`pendingLogin
      ensures !loading
      ensures var demo := FindIn(accounts, old(email));
        (demo.Some? ==> lookups == old(lookups)) && (demo.None? ==> lookups == old(lookups) + [old(email)])
      ensures var o := SubmitOutcome(FindIn(accounts, old(email)), old(password), now, lookup);
        o.LoggedIn? ==> success == o.welcome && error == "" && pendingLogin == Some(o.user)
      ensures var o := SubmitOutcome(FindIn(accounts, old(email)), old(password), now, lookup);
        o.Refused? ==> error == o.message && success == "" && pendingLogin == old(pendingLogin)
    {
      var submitted := email;
      var demo := FindIn(accounts, submitted);
      var outcome := SubmitOutcome(demo, password, now, lookup);
      loading := true;
      error := "";
      success := "";
      if demo.None? {
        lookups := lookups + [submitted];
      }
      Show(outcome);
      loading := false;
    }

    /** The end of a submit: the success text and the pending `onLogin`, or the error text. */
    method Show(outcome: Outcome)
      requires error == "" && success == ""
      modifies this`error, this`success, this`pendingLogin
      ensures outcome.LoggedIn? ==> success == outcome.welcome && error == "" && pendingLogin == Some(outcome.user)
      ensures outcome.Refused? ==> error == outcome.message && success == "" && pendingLogin == old(pendingLogin)
    {
      match outcome {
        case LoggedIn(welcome, user) =>
          success := welcome;
          pendingLogin := Some(user);
        case Refused(message) =>
          error := message;
      }
    }

    /** `handleDemoLogin`: fills in the e-mail and the password 'demo123'. */
    method HandleDemoLogin(demoEmail: string)
      modifies this`email, this`password
      ensures email == demoEmail && password == "demo123"
    {
      email := demoEmail;
      password := "demo123";
    }
  }

  /** Clicking a demo account and then signing in always succeeds, without a lookup. */
  method DemoClickThenSubmit(page: LoginPage, a: DemoAccount, now: int, lookup: Lookup)
    requires page.accounts == DemoAccounts() && a in DemoAccounts()
    modifies page
    ensures page.pendingLogin.Some? && page.lookups == old(page.lookups) && page.error == ""
    ensures page.pendingLogin.value.userRole == RoleSlug(a.role)
  {
    page.HandleDemoLogin(a.email);
    DemoEmailsDistinct(a);
    page.HandleSubmit(now, lookup);
  }

  /** Each demo e-mail belongs to one account, so the lookup finds the account clicked. */
  lemma DemoEmailsDistinct(a: DemoAccount)
    requires a in DemoAccounts()
    ensures FindDemo(a.email) == Some(a)
  {
    var d := DemoAccounts();
    assert forall i, j :: 0 <= i < j < |d| ==> d[i].email != d[j].email;
    FindDistinct(d, a);
  }

  lemma {:induction false} FindDistinct(accounts: seq<DemoAccount>, a: DemoAccount)
    requires a in accounts
    requires forall i, j :: 0 <= i < j < |accounts| ==> accounts[i].email != accounts[j].email
    ensures FindIn(accounts, a.email) == Some(a)
    decreases |accounts|
  {
    if accounts[0] != a {
      var k :| 0 <= k < |accounts| && accounts[k] == a;
      assert accounts[1..][k - 1] == a;
      FindDistinct(accounts[1..], a);
    }
  }
}
