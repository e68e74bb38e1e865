/**
 * The admin portal's permissions page: the role table with each role's
 * type and default permissions, the new-user form and how it is stored,
 * the grant records and their revocation, and the user list filter.
 */
module UserPermissions {
  import opened Util
  import opened Text
  import opened Seqs
  import opened Validation

  // The page's alerts.
  const CreateFailed := "Failed to create user. Please check if email or phone already exists."
  const CreateDone := "User created successfully!"
  const GrantFailed := "Failed to grant permission. Please try again."
  const GrantDone := "Permission granted successfully!"
  const RevokeFailed := "Failed to revoke permission. Please try again."
  const RevokeDone := "Permission revoked successfully!"

  datatype RoleDefinition = RoleDefinition(userType: string, permissions: seq<string>)

  /** `userRoleDefinitions`. */
  function RoleDefinitions(): map<string, RoleDefinition>
  {
    map[
      "customer" := RoleDefinition("end_user", []),
      "premium_customer" := RoleDefinition("end_user", []),
      "student" := RoleDefinition("end_user", []),
      "corporate_user" := RoleDefinition("end_user", []),
      "tourist" := RoleDefinition("end_user", []),
      "super_admin" := RoleDefinition("admin", ["all"]),
      "operations_manager" := RoleDefinition("admin", ["bike_management", "location_management", "staff_management", "analytics"]),
      "finance_manager" := RoleDefinition("admin", ["financial_reports", "payment_management", "organization_billing"]),
      "customer_support" := RoleDefinition("staff", ["user_support", "communication", "issue_resolution"]),
      "data_analyst" := RoleDefinition("staff", ["analytics", "reporting", "data_export"]),
      "field_technician" := RoleDefinition("staff", ["bike_maintenance", "view_bike_status"]),
      "redistributor" := RoleDefinition("staff", ["bike_redistribution", "location_management"]),
      "charging_staff" := RoleDefinition("staff", ["bike_maintenance", "view_bike_status"]),
      "quality_inspector" := RoleDefinition("staff", ["bike_management", "view_operational_reports"]),
      "payment_partner" := RoleDefinition("partner", ["payment_management", "view_transactions"]),
      "location_partner" := RoleDefinition("partner", ["location_management"]),
      "corporate_partner" := RoleDefinition("partner", ["organization_billing", "view_user_profiles"]),
      "government_official" := RoleDefinition("partner", ["analytics", "reporting", "view_operational_reports"]),
      "api_service" := RoleDefinition("system", ["api_access", "data_sync"]),
      "automated_system" := RoleDefinition("system", ["scheduled_tasks", "monitoring"]),
      "test_account" := RoleDefinition("system", [])
    ]
  }

  /** The five user types the table uses. */
  predicate KnownType(t: string)
  {
    t == "end_user" || t == "admin" || t == "staff" || t == "partner" || t == "system"
  }

  /** Every defined role has a non-empty type, one of the five. */
  lemma RoleTypesKnown(role: string)
    requires role in RoleDefinitions()
    ensures KnownType(RoleDefinitions()[role].userType) && RoleDefinitions()[role].userType != ""
  {
  }

  /** `roleDefinition?.permissions || []`. */
  function DefaultPermissions(role: string): (p: seq<string>)
    ensures role !in RoleDefinitions() ==> p == []
    ensures role in RoleDefinitions() ==> p == RoleDefinitions()[role].permissions
  {
    if role in RoleDefinitions() then RoleDefinitions()[role].permissions else []
  }

  // ---------------------------------------------------------------
  // The new-user form

  datatype NewUserForm = NewUserForm(
    fullName: string, fullNameAmharic: string, email: string, phone: string,
    userRole: string, userType: string, organizationId: string,
    studentId: string, employeeId: string, governmentId: string,
    subscriptionType: string, permissions: seq<string>)

  function InitialForm(): (f: NewUserForm)
    ensures f.userRole == "customer" && f.userType == "end_user" && f.permissions == []
    ensures f.fullName == "" && f.email == "" && f.phone == "" && f.subscriptionType == "pay_per_ride"
  {
    NewUserForm("", "", "", "", "customer", "end_user", "", "", "", "", "pay_per_ride", [])
  }

  /** The list operation of `togglePermission`: drop every copy when present, otherwise append. */
  function Toggle(perms: seq<string>, p: string): (r: seq<string>)
    ensures p in r <==> p !in perms
    ensures forall x :: x != p ==> (x in r <==> x in perms)
    ensures p !in perms ==> r == perms + [p]
    ensures p in perms ==> |r| < |perms| && IsSubsequence(r, perms)
  {
    if p in perms then
      var r := Filter(perms, (x: string) => x != p);
      forall x ensures x in r <==> x in perms && x != p {
        FilterMembership(perms, (x: string) => x != p, x);
      }
      FilterIsSubsequence(perms, (x: string) => x != p);
      FilterShorter(perms, (x: string) => x != p, p);
      r
    else
      perms + [p]
  }

  /** Filtering out an element that is present makes the list shorter. */
  lemma {:induction false} FilterShorter(s: seq<string>, q: string -> bool, p: string)
    requires p in s && !q(p)
    ensures |Filter(s, q)| < |s|
    decreases |s|
  {
    if s[0] != p {
      FilterShorter(s[1..], q, p);
    }
  }

  /** Toggling an absent permission twice restores the list. */
  lemma ToggleTwiceRestores(perms: seq<string>, p: string)
    requires p !in perms
    ensures Toggle(Toggle(perms, p), p) == perms
  {
    var once := perms + [p];
    assert p in once;
    FilterAppend(perms, [p], (x: string) => x != p);
    FilterAll(perms, (x: string) => x != p);
  }

  /** Toggling a present permission twice leaves one copy of it, moved to the end. */
  lemma ToggleTwicePresent(perms: seq<string>, p: string)
    requires p in perms
    ensures Toggle(Toggle(perms, p), p) == Filter(perms, (x: string) => x != p) + [p]
  {
  }

  /** The form update of `handleRoleChange`: the role, its type ('end_user' when unknown) and its defaults replace the form's. */
  function ApplyRole(form: NewUserForm, role: string): (r: NewUserForm)
    ensures r.userRole == role && r.permissions == DefaultPermissions(role)
    ensures role in RoleDefinitions() ==> r.userType == RoleDefinitions()[role].userType
    ensures role !in RoleDefinitions() ==> r.userType == "end_user"
    ensures r.(userRole := form.userRole, userType := form.userType, permissions := form.permissions) == form
  {
    var t := if role in RoleDefinitions() then Or(RoleDefinitions()[role].userType, "end_user") else "end_user";
    form.(userRole := role, userType := t, permissions := DefaultPermissions(role))
  }

  /** The stored `user_type`: the role's type when the role is defined, otherwise the form's. */
  function StoredType(form: NewUserForm): (t: string)
    ensures form.userRole in RoleDefinitions() ==> t == RoleDefinitions()[form.userRole].userType
    ensures form.userRole !in RoleDefinitions() ==> t == form.userType
  {
    if form.userRole in RoleDefinitions() then Or(RoleDefinitions()[form.userRole].userType, form.userType) else form.userType
  }

  /** The stored permissions: the role's defaults, then the form's list, with nothing removed. */
  function StoredPermissions(form: NewUserForm): (p: seq<string>)
    ensures |p| == |DefaultPermissions(form.userRole)| + |form.permissions|
    ensures p[..|DefaultPermissions(form.userRole)|] == DefaultPermissions(form.userRole)
    ensures p[|DefaultPermissions(form.userRole)|..] == form.permissions
  {
    DefaultPermissions(form.userRole) + form.permissions
  }

  /** After choosing a role, its defaults are stored twice. */
  lemma DefaultsStoredTwice(form: NewUserForm, role: string)
    ensures StoredPermissions(ApplyRole(form, role)) == DefaultPermissions(role) + DefaultPermissions(role)
  {
  }

  /** The support and analyst roles are stored as staff by this page. */
  lemma SupportAndAnalystAreStaff(form: NewUserForm)
    requires form.userRole == "customer_support" || form.userRole == "data_analyst"
    ensures StoredType(form) == "staff"
  {
  }

  /** The `users` row that creating a user inserts. */
  datatype UserRow = UserRow(
    id: string, fullName: string, fullNameAmharic: Option<string>, email: string, phone: string,
    userRole: string, userType: string, organizationId: Option<string>,
    studentId: Option<string>, employeeId: Option<string>, governmentId: Option<string>,
    subscriptionType: string, permissions: seq<string>, verified: bool, status: string)

  /** `x || null` on a form string. */
  function OrNull(x: string): (r: Option<string>)
    ensures r.None? <==> x == ""
    ensures r.Some? ==> r.value == x
  {
    if x == "" then None else Some(x)
  }

  function NewUserRow(id: string, form: NewUserForm): (row: UserRow)
    ensures !row.verified && row.status == "pending"
    ensures row.fullName == form.fullName && row.email == form.email && row.phone == form.phone
    ensures row.userRole == form.userRole && row.subscriptionType == form.subscriptionType
  {
    UserRow(id, form.fullName, OrNull(form.fullNameAmharic), form.email, form.phone,
      form.userRole, StoredType(form), OrNull(form.organizationId),
      OrNull(form.studentId), OrNull(form.employeeId), OrNull(form.governmentId),
      form.subscriptionType, StoredPermissions(form), false, "pending")
  }

  /** The inserted row takes its type from the role table and keeps the role's defaults before the form's list. */
  lemma NewUserRowStored(id: string, form: NewUserForm)
    ensures form.userRole in RoleDefinitions() ==> NewUserRow(id, form).userType == RoleDefinitions()[form.userRole].userType
    ensures form.userRole !in RoleDefinitions() ==> NewUserRow(id, form).userType == form.userType
    ensures NewUserRow(id, form).permissions == DefaultPermissions(form.userRole) + form.permissions
  {
  }

  // ---------------------------------------------------------------
  // Grants

  /** A `user_permissions` row; ids are handed out by the table in sequence. */
  datatype Grant = Grant(
    id: nat, userId: string, permissionName: string, resourceType: Option<string>,
    grantedBy: string, expiresAt: Option<string>, isActive: bool)

  /** One grant per form permission, in order, numbered from `firstId`. */
  function GrantsFor(userId: string, perms: seq<string>, grantedBy: string, firstId: nat): (r: seq<Grant>)
    ensures |r| == |perms|
    ensures forall k :: 0 <= k < |r| ==>
      r[k] == Grant(firstId + k, userId, perms[k], None, grantedBy, None, true)
    decreases |perms|
  {
    if perms == [] then []
    else [Grant(firstId, userId, perms[0], None, grantedBy, None, true)] + GrantsFor(userId, perms[1..], grantedBy, firstId + 1)
  }

  /**
   * The grants inserted when a user is created: one per form permission,
   * when there are any, someone is signed in, and the insert succeeds.
   */
  function CreatedGrants(userId: string, perms: seq<string>, currentUser: Option<string>, insertFails: bool, firstId: nat): (r: seq<Grant>)
    ensures (|perms| == 0 || currentUser.None? || insertFails) ==> r == []
    ensures |perms| > 0 && currentUser.Some? && !insertFails ==> r == GrantsFor(userId, perms, currentUser.value, firstId)
    ensures forall k :: 0 <= k < |r| ==> firstId <= r[k].id < firstId + |r|
  {
    if |perms| > 0 && currentUser.Some? && !insertFails then GrantsFor(userId, perms, currentUser.value, firstId) else []
  }

  /** `getUserPermissions`: the active grants of a user, in order. */
  function GetUserPermissions(grants: seq<Grant>, userId: string): (r: seq<Grant>)
    ensures forall k :: 0 <= k < |r| ==> r[k].userId == userId && r[k].isActive
  {
    Filter(grants, (g: Grant) => g.userId == userId && g.isActive)
  }

  /** A grant is listed for a user exactly when it is one of theirs and active; the order is kept. */
  lemma UserPermissionsExactly(grants: seq<Grant>, userId: string, g: Grant)
    ensures g in GetUserPermissions(grants, userId) <==> g in grants && g.userId == userId && g.isActive
    ensures IsSubsequence(GetUserPermissions(grants, userId), grants)
  {
    FilterMembership(grants, (g: Grant) => g.userId == userId && g.isActive, g);
    FilterIsSubsequence(grants, (g: Grant) => g.userId == userId && g.isActive);
  }

  /** `revokePermission`: the grant is deactivated, not deleted. */
  function Revoke(grants: seq<Grant>, permissionId: nat): (r: seq<Grant>)
    ensures |r| == |grants|
    ensures forall k :: 0 <= k < |r| && grants[k].id == permissionId ==> r[k] == grants[k].(isActive := false)
    ensures forall k :: 0 <= k < |r| && grants[k].id != permissionId ==> r[k] == grants[k]
  {
    MapWhere(grants, (g: Grant) => g.id == permissionId, (g: Grant) => g.(isActive := false))
  }

  /** After a revoke the grant drops out of every user's list, and no other grant is affected. */
  lemma RevokedDropsOut(grants: seq<Grant>, permissionId: nat, userId: string, g: Grant)
    ensures g in GetUserPermissions(Revoke(grants, permissionId), userId) ==> g.id != permissionId
    ensures g.id != permissionId ==>
      (g in GetUserPermissions(Revoke(grants, permissionId), userId) <==> g in GetUserPermissions(grants, userId))
  {
    var r := Revoke(grants, permissionId);
    UserPermissionsExactly(r, userId, g);
    UserPermissionsExactly(grants, userId, g);
    if g in r && g.isActive {
      var k :| 0 <= k < |r| && r[k] == g;
      assert grants[k].id != permissionId;
    }
    if g in grants && g.id != permissionId {
      var k :| 0 <= k < |grants| && grants[k] == g;
      assert r[k] == g;
    }
  }

  // ---------------------------------------------------------------
  // The user list

  /** `filteredUsers`: name, e-mail or role contains the term (lower-cased), and the type filter matches. */
  predicate UserMatches(u: UserRow, searchTerm: string, filterType: string)
  {
    var term := Lower(searchTerm);
    (Contains(Lower(u.fullName), term) || Contains(Lower(u.email), term) || Contains(Lower(u.userRole), term))
    && (filterType == "all" || u.userType == filterType)
  }

  function FilteredUsers(users: seq<UserRow>, searchTerm: string, filterType: string): (r: seq<UserRow>)
    ensures forall k :: 0 <= k < |r| ==> UserMatches(r[k], searchTerm, filterType)
  {
    Filter(users, (u: UserRow) => UserMatches(u, searchTerm, filterType))
  }

  /** A user is listed exactly when loaded and matching, and the list keeps the loaded order. */
  lemma FilteredUsersExactly(users: seq<UserRow>, searchTerm: string, filterType: string, u: UserRow)
    ensures u in FilteredUsers(users, searchTerm, filterType) <==> u in users && UserMatches(u, searchTerm, filterType)
    ensures IsSubsequence(FilteredUsers(users, searchTerm, filterType), users)
  {
    var p := (u: UserRow) => UserMatches(u, searchTerm, filterType);
    FilterMembership(users, p, u);
    FilterIsSubsequence(users, p);
  }

  /** With an empty term and the 'all' filter every user is listed. */
  lemma EmptySearchListsAll(users: seq<UserRow>)
    ensures FilteredUsers(users, "", "all") == users
  {
    forall k | 0 <= k < |users| ensures UserMatches(users[k], "", "all") {
      ContainsEmpty(Lower(users[k].fullName));
    }
    FilterAll(users, (u: UserRow) => UserMatches(u, "", "all"));
  }

  /** The per-type count on the summary cards. */
  function TypeCount(users: seq<UserRow>, t: string): (n: nat)
    ensures n <= |users|
  {
    |Filter(users, (u: UserRow) => u.userType == t)|
  }

  /** The positions in the user list whose type is `t`. */
  function TypePositions(users: seq<UserRow>, t: string): set<int>
  {
    set k | 0 <= k < |users| && users[k].userType == t
  }

  /** A card shows the number of positions in the user list whose type is the card's. */
  lemma TypeCountIsCount(users: seq<UserRow>, t: string)
    ensures TypeCount(users, t) == |TypePositions(users, t)|
  {
    var p := (u: UserRow) => u.userType == t;
    FilterCount(users, p);
    assert Positions(users, p) == TypePositions(users, t);
  }

  /**
   * The Administrators, Staff Members and Partners cards never add up to
   * more than the users loaded, and add up to exactly that many when every
   * user has one of those three types.
   */
  lemma CardsAddUp(users: seq<UserRow>)
    ensures TypeCount(users, "admin") + TypeCount(users, "staff") + TypeCount(users, "partner") <= |users|
    ensures TypeCount(users, "admin") + TypeCount(users, "staff") + TypeCount(users, "partner") == |users| <==>
      forall k :: 0 <= k < |users| ==> users[k].userType in {"admin", "staff", "partner"}
  {
    var admin := (u: UserRow) => u.userType == "admin";
    var staff := (u: UserRow) => u.userType == "staff";
    var partner := (u: UserRow) => u.userType == "partner";
    var either := (u: UserRow) => u.userType == "admin" || u.userType == "staff";
    var any := (u: UserRow) => u.userType in {"admin", "staff", "partner"};
    FilterDisjointCounts(users, admin, staff, either);
    FilterDisjointCounts(users, either, partner, any);
    FilterLengthIff(users, any);
  }

  /** The grant dialog's user picker: the first user with the chosen id, if any. */
  function SelectUser(users: seq<UserRow>, id: string): (r: Option<UserRow>)
    ensures r.Some? ==> r.value in users && r.value.id == id
    ensures r.None? <==> forall k :: 0 <= k < |users| ==> users[k].id != id
    ensures r.Some? ==> exists k :: 0 <= k < |users| && users[k] == r.value && forall m :: 0 <= m < k ==> users[m].id != id
    decreases |users|
  {
    if users == [] then None
    else if users[0].id == id then Some(users[0])
    else
      var r := SelectUser(users[1..], id);
      if r.Some? then
        var k :| 0 <= k < |users[1..]| && users[1..][k] == r.value && forall m :: 0 <= m < k ==> users[1..][m].id != id;
        assert users[k + 1] == r.value;
        r
      else
        r
  }

  // ---------------------------------------------------------------
  // The page

  /** Grants numbered from `next` on keep every id below the new next id. */
  lemma GrantsStayBelow(grants: seq<Grant>, added: seq<Grant>, next: nat)
    requires forall k :: 0 <= k < |grants| ==> grants[k].id < next
    requires forall k :: 0 <= k < |added| ==> next <= added[k].id < next + |added|
    ensures forall k :: 0 <= k < |grants + added| ==> (grants + added)[k].id < next + |added|
  {
  }

  /** An id greater than every grant id in `grants`. */
  function IdAbove(grants: seq<Grant>): (n: nat)
    ensures forall k :: 0 <= k < |grants| ==> grants[k].id < n
    decreases |grants|
  {
    if grants == [] then 0
    else
      var rest := IdAbove(grants[1..]);
      assert forall k :: 1 <= k < |grants| ==> grants[k] == grants[1..][k - 1];
      if grants[0].id < rest then rest else grants[0].id + 1
  }

  class PermissionsPage {
    /**
     * The `users` and `user_permissions` rows the page holds: those loaded on
     * mount, with the page's own inserts appended and its revocations applied
     * in place.
     */
    var users: seq<UserRow>
    var grants: seq<Grant>
    /** The id the next inserted grant receives. */
    var nextGrantId: nat
    var form: NewUserForm
    var showAddUserModal: bool
    var showGrantModal: bool
    var alertMessage: Option<string>

    ghost predicate Valid()
      reads this
    {
      forall k :: 0 <= k < |grants| ==> grants[k].id < nextGrantId
    }

    /** Mounting, with the users and grants the first fetches returned. */
    constructor (loadedUsers: seq<UserRow>, loadedGrants: seq<Grant>)
      ensures Valid() && users == loadedUsers && grants == loadedGrants && form == InitialForm()
      ensures !showAddUserModal && !showGrantModal && alertMessage == None
    {
      users, grants, nextGrantId := loadedUsers, loadedGrants, IdAbove(loadedGrants);
      form := InitialForm();
      showAddUserModal, showGrantModal := false, false;
      alertMessage := None;
    }

    /** `togglePermission` on the form's list; nothing else in the form changes. */
    method TogglePermission(p: string)
      requires Valid()
      modifies this`form
      ensures Valid() && form == old(form).(permissions := Toggle(old(form).permissions, p))
    {
      form := form.(permissions := Toggle(form.permissions, p));
    }

    /** `handleRoleChange`. */
    method HandleRoleChange(role: string)
      requires Valid()
      modifies this`form
      ensures Valid() && form == ApplyRole(old(form), role)
    {
      form := ApplyRole(form, role);
    }

    /**
     * `createUser`. `newUserId` is the id the table gives the row; the insert
     * and the grant insert may fail (`insertFails`, `grantsFail`), and
     * `currentUser` is the signed-in admin, if any. A failed grant insert is
     * only logged.
     */
    method CreateUser(newUserId: string, currentUser: Option<string>, insertFails: bool, grantsFail: bool)
      requires Valid()
      modifies this`users, this`grants, this`nextGrantId, this`form, this`showAddUserModal, this`alertMessage
      ensures Valid()
      ensures var check := CheckNewUser(old(form).fullName, old(form).email, old(form).phone);
        && (check.Some? ==>
              alertMessage == check && users == old(users) && grants == old(grants) && form == old(form)
              && showAddUserModal == old(showAddUserModal))
        && (check.None? && insertFails ==>
              alertMessage == Some(CreateFailed)
              && users == old(users) && grants == old(grants) && form == old(form)
              && showAddUserModal == old(showAddUserModal))
        && (check.None? && !insertFails ==>
              && users == old(users) + [NewUserRow(newUserId, old(form))]
              && grants == old(grants) + CreatedGrants(newUserId, old(form).permissions, currentUser, grantsFail, old(nextGrantId))
              && form == InitialForm() && !showAddUserModal
              && alertMessage == Some(CreateDone))
    {
      var check := CheckNewUser(form.fullName, form.email, form.phone);
      if check.Some? {
        alertMessage := check;
        return;
      }
      if insertFails {
        alertMessage := Some(CreateFailed);
        return;
      }
      InsertUser(newUserId, currentUser, grantsFail);
    }

    /** The part of `createUser` after a successful insert: the grants, the reset and the alert. */
    method InsertUser(newUserId: string, currentUser: Option<string>, grantsFail: bool)
      requires Valid()
      modifies this`users, this`grants, this`nextGrantId, this`form, this`showAddUserModal, this`alertMessage
      ensures Valid()
      ensures users == old(users) + [NewUserRow(newUserId, old(form))]
      ensures grants == old(grants) + CreatedGrants(newUserId, old(form).permissions, currentUser, grantsFail, old(nextGrantId))
      ensures form == InitialForm() && !showAddUserModal && alertMessage == Some(CreateDone)
    {
      var row := NewUserRow(newUserId, form);
      var added := CreatedGrants(newUserId, form.permissions, currentUser, grantsFail, nextGrantId);
      GrantsStayBelow(grants, added, nextGrantId);
      users, grants, nextGrantId := users + [row], grants + added, nextGrantId + |added|;
      form, showAddUserModal, alertMessage := InitialForm(), false, Some(CreateDone);
    }

    /** `grantPermission`: refused when nobody is signed in; an expiry of '' is stored as null. */
    method GrantPermission(currentUser: Option<string>, userId: string, permissionName: string,
                           resourceType: Option<string>, expiresAt: string, insertFails: bool)
      requires Valid()
      modifies this`grants, this`nextGrantId, this`showGrantModal, this`alertMessage
      ensures Valid()
      ensures currentUser.None? || insertFails ==>
        grants == old(grants) && showGrantModal == old(showGrantModal)
        && alertMessage == Some(GrantFailed)
      ensures currentUser.Some? && !insertFails ==>
        grants == old(grants) + [Grant(old(nextGrantId), userId, permissionName, resourceType, currentUser.value, OrNull(expiresAt), true)]
        && !showGrantModal && alertMessage == Some(GrantDone)
    {
      if currentUser.None? || insertFails {
        alertMessage := Some(GrantFailed);
        return;
      }
      grants := grants + [Grant(nextGrantId, userId, permissionName, resourceType, currentUser.value, OrNull(expiresAt), true)];
      nextGrantId := nextGrantId + 1;
      showGrantModal := false;
      alertMessage := Some(GrantDone);
    }

    /** `revokePermission`: the table row is deactivated and the list refetched. */
    method RevokePermission(permissionId: nat, updateFails: bool)
      requires Valid()
      modifies this`grants, this`alertMessage
      ensures Valid()
      ensures updateFails ==> grants == old(grants) && alertMessage == Some(RevokeFailed)
      ensures !updateFails ==> grants == Revoke(old(grants), permissionId) && alertMessage == Some(RevokeDone)
    {
      if updateFails {
        alertMessage := Some(RevokeFailed);
        return;
      }
      grants := Revoke(grants, permissionId);
      alertMessage := Some(RevokeDone);
    }
  }
}
