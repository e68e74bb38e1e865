/**
 * The admin user-management page: the summary counts, the list filter, the
 * local status and verification updates, the role-to-type mapping of the
 * add-user form, the "time ago" text and the CSV export.
 */
module UserManagement {
  import opened Util
  import opened Text
  import opened Seqs
  import opened Validation
  import UserPermissions

  // The page's alerts.
  const CreateFailed := "Failed to create user. Please check if email or phone already exists."
  const CreateDone := "User created successfully!"
  const StatusFailed := "Failed to update user status"
  const VerifyFailed := "Failed to update user verification"

  /** A `users` row as the page selects it, with the joined organization name. */
  datatype ManagedUser = ManagedUser(
    id: string, email: string, phone: string, fullName: string, fullNameAmharic: Option<string>,
    userRole: string, userType: string, verified: bool,
    walletBalance: int, totalRides: int, subscriptionType: string, status: string,
    createdAt: string, organizationId: Option<string>, studentId: Option<string>,
    employeeId: Option<string>, organizationName: Option<string>)

  // ---------------------------------------------------------------
  // Summary counts

  datatype Stats = Stats(total: nat, verified: nat, pending: nat, suspended: nat)

  function VerifiedCount(users: seq<ManagedUser>): nat
  {
    |Filter(users, (u: ManagedUser) => u.verified)|
  }

  function StatusCount(users: seq<ManagedUser>, status: string): nat
  {
    |Filter(users, (u: ManagedUser) => u.status == status)|
  }

  /** The four numbers the page computes after each fetch. */
  function StatsOf(users: seq<ManagedUser>): (s: Stats)
    ensures s.total == |users|
    ensures s.verified <= s.total && s.pending <= s.total && s.suspended <= s.total
    ensures s.pending + s.suspended <= s.total
  {
    var either := (u: ManagedUser) => u.status == "pending" || u.status == "suspended";
    FilterDisjointCounts(users, (u: ManagedUser) => u.status == "pending", (u: ManagedUser) => u.status == "suspended", either);
    Stats(|users|, VerifiedCount(users), StatusCount(users, "pending"), StatusCount(users, "suspended"))
  }

  /** The counts of two lists put together are the sums of their counts. */
  lemma StatsAppend(a: seq<ManagedUser>, b: seq<ManagedUser>)
    ensures StatsOf(a + b) == Stats(
      StatsOf(a).total + StatsOf(b).total, StatsOf(a).verified + StatsOf(b).verified,
      StatsOf(a).pending + StatsOf(b).pending, StatsOf(a).suspended + StatsOf(b).suspended)
  {
    FilterAppend(a, b, (u: ManagedUser) => u.verified);
    FilterAppend(a, b, (u: ManagedUser) => u.status == "pending");
    FilterAppend(a, b, (u: ManagedUser) => u.status == "suspended");
  }

  // ---------------------------------------------------------------
  // The list filter

  /**
   * `filteredUsers`: name, e-mail or role contains the term (both
   * lower-cased) or the phone contains the term as typed; and the status and
   * type filters are 'all' or equal.
   */
  predicate Listed(u: ManagedUser, searchTerm: string, statusFilter: string, typeFilter: string)
  {
    var term := Lower(searchTerm);
    (Contains(Lower(u.fullName), term) || Contains(Lower(u.email), term)
     || Contains(u.phone, searchTerm) || Contains(Lower(u.userRole), term))
    && (statusFilter == "all" || u.status == statusFilter)
    && (typeFilter == "all" || u.userType == typeFilter)
  }

  function FilteredUsers(users: seq<ManagedUser>, searchTerm: string, statusFilter: string, typeFilter: string): (r: seq<ManagedUser>)
    ensures |r| <= |users|
    ensures forall k :: 0 <= k < |r| ==> Listed(r[k], searchTerm, statusFilter, typeFilter)
  {
    Filter(users, (u: ManagedUser) => Listed(u, searchTerm, statusFilter, typeFilter))
  }

  /** A user is listed exactly when loaded and matching all three conditions; the loaded order is kept. */
  lemma FilteredUsersExactly(users: seq<ManagedUser>, searchTerm: string, statusFilter: string, typeFilter: string, u: ManagedUser)
    ensures u in FilteredUsers(users, searchTerm, statusFilter, typeFilter) <==>
      u in users && Listed(u, searchTerm, statusFilter, typeFilter)
    ensures IsSubsequence(FilteredUsers(users, searchTerm, statusFilter, typeFilter), users)
  {
    var p := (u: ManagedUser) => Listed(u, searchTerm, statusFilter, typeFilter);
    FilterMembership(users, p, u);
    FilterIsSubsequence(users, p);
  }

  /** An empty search with both filters at 'all' lists every loaded user. */
  lemma NoFilterListsAll(users: seq<ManagedUser>)
    ensures FilteredUsers(users, "", "all", "all") == users
  {
    forall k | 0 <= k < |users| ensures Listed(users[k], "", "all", "all") {
      ContainsEmpty(Lower(users[k].fullName));
    }
    FilterAll(users, (u: ManagedUser) => Listed(u, "", "all", "all"));
  }

  /** A status filter other than 'all' lists only users with that status. */
  lemma StatusFilterSelects(users: seq<ManagedUser>, searchTerm: string, statusFilter: string, typeFilter: string)
    requires statusFilter != "all"
    ensures forall k :: 0 <= k < |FilteredUsers(users, searchTerm, statusFilter, typeFilter)| ==>
      FilteredUsers(users, searchTerm, statusFilter, typeFilter)[k].status == statusFilter
  {
  }

  // ---------------------------------------------------------------
  // Local updates after a successful write

  /** The list after `updateUserStatus` succeeds. */
  function SetStatus(users: seq<ManagedUser>, userId: string, status: string): (r: seq<ManagedUser>)
    ensures |r| == |users|
    ensures forall k :: 0 <= k < |r| ==> r[k].(status := users[k].status) == users[k]
    ensures forall k :: 0 <= k < |r| ==> r[k].status == if users[k].id == userId then status else users[k].status
  {
    MapWhere(users, (u: ManagedUser) => u.id == userId, (u: ManagedUser) => u.(status := status))
  }

  /** The list after `toggleUserVerification` succeeds. */
  function SetVerified(users: seq<ManagedUser>, userId: string, verified: bool): (r: seq<ManagedUser>)
    ensures |r| == |users|
    ensures forall k :: 0 <= k < |r| ==> r[k].(verified := users[k].verified) == users[k]
    ensures forall k :: 0 <= k < |r| ==> r[k].verified == if users[k].id == userId then verified else users[k].verified
  {
    MapWhere(users, (u: ManagedUser) => u.id == userId, (u: ManagedUser) => u.(verified := verified))
  }

  /** A status update of an id that is not loaded changes nothing; a second update of the same id overrides the first. */
  lemma SetStatusLastWins(users: seq<ManagedUser>, userId: string, a: string, b: string)
    ensures SetStatus(SetStatus(users, userId, a), userId, b) == SetStatus(users, userId, b)
    ensures (forall k :: 0 <= k < |users| ==> users[k].id != userId) ==> SetStatus(users, userId, a) == users
  {
    var r1 := SetStatus(SetStatus(users, userId, a), userId, b);
    var r2 := SetStatus(users, userId, b);
    assert forall k :: 0 <= k < |r1| ==> r1[k] == r2[k];
  }

  /**
   * Toggling the verification of a user whose rows all show the same flag,
   * and then toggling back, restores the list.
   */
  lemma ToggleVerifiedTwice(users: seq<ManagedUser>, userId: string, current: bool)
    requires forall k :: 0 <= k < |users| && users[k].id == userId ==> users[k].verified == current
    ensures SetVerified(SetVerified(users, userId, !current), userId, current) == users
  {
    var r := SetVerified(SetVerified(users, userId, !current), userId, current);
    assert forall k :: 0 <= k < |r| ==> r[k] == users[k];
  }

  /** The status the row's shield button asks for. */
  function NextToggleStatus(status: string): (next: string)
    ensures next == "suspended" <==> status == "active"
    ensures next != "suspended" ==> next == "active"
  {
    if status == "active" then "suspended" else "active"
  }

  /** The button always asks for a different status; 'pending' and 'suspended' both go to 'active'. */
  lemma ToggleChangesStatus(status: string)
    ensures NextToggleStatus(status) != status
    ensures NextToggleStatus(NextToggleStatus(status)) == (if status == "active" then "active" else "suspended")
  {
  }

  // ---------------------------------------------------------------
  // The add-user form

  datatype ManagedForm = ManagedForm(
    fullName: string, fullNameAmharic: string, email: string, phone: string,
    userRole: string, userType: string, organizationId: string,
    studentId: string, employeeId: string, subscriptionType: string)

  function InitialForm(): (f: ManagedForm)
    ensures f.userRole == "customer" && f.userType == "end_user" && f.subscriptionType == "pay_per_ride"
    ensures f.fullName == "" && f.email == "" && f.phone == ""
  {
    ManagedForm("", "", "", "", "customer", "end_user", "", "", "", "pay_per_ride")
  }

  function AdminRoles(): seq<string>
  {
    ["super_admin", "operations_manager", "finance_manager", "customer_support", "data_analyst"]
  }

  function StaffRoles(): seq<string>
  {
    ["field_technician", "redistributor", "charging_staff", "quality_inspector"]
  }

  function PartnerRoles(): seq<string>
  {
    ["payment_partner", "location_partner", "corporate_partner", "government_official"]
  }

  /** The type the role select writes into the form. */
  function RoleToType(role: string): (t: string)
    ensures t == "admin" <==> role in AdminRoles()
    ensures t == "staff" <==> role in StaffRoles()
    ensures t == "partner" <==> role in PartnerRoles()
    ensures t == "end_user" <==> role !in AdminRoles() && role !in StaffRoles() && role !in PartnerRoles()
  {
    if role in AdminRoles() then "admin"
    else if role in StaffRoles() then "staff"
    else if role in PartnerRoles() then "partner"
    else "end_user"
  }

  /**
   * Against the role table of the permissions page, this mapping agrees on
   * every defined role except the support and analyst roles (admin here,
   * staff there) and the three system roles (end_user here, system there).
   */
  lemma RoleToTypeVsDefinitions(role: string)
    requires role in UserPermissions.RoleDefinitions()
    ensures RoleToType(role) == UserPermissions.RoleDefinitions()[role].userType <==>
      role != "customer_support" && role != "data_analyst"
      && role != "api_service" && role != "automated_system" && role != "test_account"
  {
  }

  /** The role select's update of the form. */
  function SelectRole(form: ManagedForm, role: string): (r: ManagedForm)
    ensures r.userRole == role && r.userType == RoleToType(role)
    ensures r.(userRole := form.userRole, userType := form.userType) == form
  {
    form.(userRole := role, userType := RoleToType(role))
  }

  /** The row `createUser` inserts; the id and creation time come from the database. */
  function NewManagedRow(id: string, createdAt: string, form: ManagedForm): (row: ManagedUser)
    ensures row.userRole == form.userRole && row.userType == form.userType
    ensures !row.verified && row.status == "pending" && row.walletBalance == 0 && row.totalRides == 0
    ensures row.fullNameAmharic == UserPermissions.OrNull(form.fullNameAmharic)
    ensures row.organizationId == UserPermissions.OrNull(form.organizationId)
  {
    ManagedUser(id, form.email, form.phone, form.fullName, UserPermissions.OrNull(form.fullNameAmharic),
      form.userRole, form.userType, false, 0, 0, form.subscriptionType, "pending",
      createdAt, UserPermissions.OrNull(form.organizationId), UserPermissions.OrNull(form.studentId),
      UserPermissions.OrNull(form.employeeId), None)
  }

  /** A row inserted after picking a role in the select carries that role's mapped type. */
  lemma InsertedTypeFollowsRole(id: string, createdAt: string, form: ManagedForm, role: string)
    ensures NewManagedRow(id, createdAt, SelectRole(form, role)).userType == RoleToType(role)
  {
  }

  // ---------------------------------------------------------------
  // "Time ago"

  /** `Math.floor((now - date) / 3600000)`: the whole hours between two times in milliseconds. */
  function HoursBetween(nowMs: int, dateMs: int): (h: int)
    ensures h * 3600000 <= nowMs - dateMs < (h + 1) * 3600000
  {
    (nowMs - dateMs) / 3600000
  }

  function TimeAgo(h: int): string
  {
    if h < 1 then "Less than an hour ago"
    else if h < 24 then IntToString(h) + " hours ago"
    else if h < 168 then IntToString(h / 24) + " days ago"
    else IntToString(h / 168) + " weeks ago"
  }

  function FormatTimeAgo(nowMs: int, dateMs: int): string
  {
    TimeAgo(HoursBetween(nowMs, dateMs))
  }

  /** The number a bucket shows and the unit after it. */
  function TimeAgoCount(h: int): (n: int)
    requires h >= 1
    ensures h < 24 ==> n == h && 1 <= n <= 23
    ensures 24 <= h < 168 ==> 1 <= n <= 6 && n * 24 <= h < (n + 1) * 24
    ensures h >= 168 ==> n >= 1 && n * 168 <= h < (n + 1) * 168
  {
    if h < 24 then h else if h < 168 then h / 24 else h / 168
  }

  function TimeAgoUnit(h: int): string
  {
    if h < 24 then " hours ago" else if h < 168 then " days ago" else " weeks ago"
  }

  /**
   * Under an hour (including a date in the future) the text is fixed;
   * otherwise it is the bucket's count followed by its unit, and reading
   * the leading number back gives that count.
   */
  lemma TimeAgoReadsBack(h: int)
    ensures h < 1 ==> TimeAgo(h) == "Less than an hour ago"
    ensures h >= 1 ==> TimeAgo(h) == IntToString(TimeAgoCount(h)) + TimeAgoUnit(h)
    ensures h >= 1 ==> ParseInt(Split(TimeAgo(h), ' ')[0]) == Some(TimeAgoCount(h))
  {
    if h >= 1 {
      var n := TimeAgoCount(h);
      NoSpaceInNumber(n);
      assert TimeAgo(h) == IntToString(n) + [' '] + TimeAgoUnit(h)[1..];
      SplitFirstPart(IntToString(n), ' ', TimeAgoUnit(h)[1..]);
      IntRoundTrip(n);
    }
  }

  lemma NoSpaceInNumber(n: int)
    ensures ' ' !in IntToString(n)
  {
  }

  // ---------------------------------------------------------------
  // CSV export

  function CsvHeader(): (h: seq<string>)
    ensures |h| == 11
  {
    ["Name", "Email", "Phone", "Role", "Type", "Status", "Verified", "Wallet Balance", "Total Rides", "Organization", "Created At"]
  }

  /** `user.organizations?.name || 'None'`. */
  function OrganizationLabel(u: ManagedUser): (text: string)
    ensures text != ""
    ensures u.organizationName.Some? && u.organizationName.value != "" ==> text == u.organizationName.value
  {
    if u.organizationName.Some? && u.organizationName.value != "" then u.organizationName.value else "None"
  }

  /** One user's cells; the date formatting is a parameter. */
  function CsvFields(u: ManagedUser, formatDate: string -> string): (f: seq<string>)
    ensures |f| == |CsvHeader()|
    ensures f[6] == "Yes" <==> u.verified
  {
    [u.fullName, u.email, u.phone, u.userRole, u.userType, u.status,
     if u.verified then "Yes" else "No", IntToString(u.walletBalance), IntToString(u.totalRides),
     OrganizationLabel(u), formatDate(u.createdAt)]
  }

  /** One line per user, in the list's order. */
  function UserLines(users: seq<ManagedUser>, formatDate: string -> string): (lines: seq<string>)
    ensures |lines| == |users|
    ensures forall k :: 0 <= k < |users| ==> lines[k] == Join(CsvFields(users[k], formatDate), ',')
  {
    seq(|users|, k requires 0 <= k < |users| => Join(CsvFields(users[k], formatDate), ','))
  }

  function CsvLines(users: seq<ManagedUser>, formatDate: string -> string): (lines: seq<string>)
    ensures |lines| == |users| + 1
  {
    [Join(CsvHeader(), ',')] + UserLines(users, formatDate)
  }

  /** `exportUsers`: the header line, then one line per listed user, no quoting. */
  function ExportCsv(users: seq<ManagedUser>, formatDate: string -> string): string
  {
    Join(CsvLines(users, formatDate), '\n')
  }

  /** No cell of any user holds a comma or a line break. */
  predicate PlainCells(users: seq<ManagedUser>, formatDate: string -> string)
  {
    forall k, j :: 0 <= k < |users| && 0 <= j < |CsvHeader()| ==>
      ',' !in CsvFields(users[k], formatDate)[j] && '\n' !in CsvFields(users[k], formatDate)[j]
  }

  /**
   * When no cell holds a comma or a line break, splitting the export on line
   * breaks and then on commas gives back the header and every user's cells,
   * in order.
   */
  lemma CsvReadsBack(users: seq<ManagedUser>, formatDate: string -> string)
    requires PlainCells(users, formatDate)
    ensures |Split(ExportCsv(users, formatDate), '\n')| == |users| + 1
    ensures Split(Split(ExportCsv(users, formatDate), '\n')[0], ',') == CsvHeader()
    ensures forall k :: 0 <= k < |users| ==>
      Split(Split(ExportCsv(users, formatDate), '\n')[k + 1], ',') == CsvFields(users[k], formatDate)
  {
    HeaderLineReadsBack();
    UserLinesReadBack(users, formatDate);
    LinesReadBack(Join(CsvHeader(), ','), UserLines(users, formatDate));
  }

  lemma HeaderLineReadsBack()
    ensures '\n' !in Join(CsvHeader(), ',') && Split(Join(CsvHeader(), ','), ',') == CsvHeader()
  {
    HeaderPlain();
    LineReadsBack(CsvHeader());
  }

  lemma UserLinesReadBack(users: seq<ManagedUser>, formatDate: string -> string)
    requires PlainCells(users, formatDate)
    ensures forall k :: 0 <= k < |users| ==>
      '\n' !in UserLines(users, formatDate)[k] && Split(UserLines(users, formatDate)[k], ',') == CsvFields(users[k], formatDate)
  {
    var lines := UserLines(users, formatDate);
    forall k | 0 <= k < |users|
      ensures '\n' !in lines[k] && Split(lines[k], ',') == CsvFields(users[k], formatDate)
    {
      var f := CsvFields(users[k], formatDate);
      assert forall j :: 0 <= j < |f| ==> ',' !in f[j] && '\n' !in f[j];
      LineReadsBack(f);
    }
  }

  lemma HeaderPlain()
    ensures forall j :: 0 <= j < |CsvHeader()| ==> ',' !in CsvHeader()[j] && '\n' !in CsvHeader()[j]
  {
    var h := CsvHeader();
    forall j | 0 <= j < |h| ensures ',' !in h[j] && '\n' !in h[j] {
      assert forall i :: 0 <= i < |h[j]| ==> 'A' <= h[j][i] <= 'z' || h[j][i] == ' ';
    }
  }

  /** One line: its cells come back by splitting on commas, and it holds no line break. */
  lemma LineReadsBack(f: seq<string>)
    requires |f| >= 1
    requires forall j :: 0 <= j < |f| ==> ',' !in f[j] && '\n' !in f[j]
    ensures '\n' !in Join(f, ',') && Split(Join(f, ','), ',') == f
  {
    JoinAvoids(f, ',', '\n');
    SplitJoin(f, ',');
  }

  lemma LinesReadBack(header: string, rest: seq<string>)
    requires '\n' !in header
    requires forall k :: 0 <= k < |rest| ==> '\n' !in rest[k]
    ensures Split(Join([header] + rest, '\n'), '\n') == [header] + rest
  {
    var lines := [header] + rest;
    forall i | 0 <= i < |lines| ensures '\n' !in lines[i] {
      if i > 0 {
        assert lines[i] == rest[i - 1];
      }
    }
    SplitJoin(lines, '\n');
  }

  /** A comma inside a name is not quoted, so that line splits into twelve cells instead of eleven. */
  lemma CommaInNameShiftsCells(u: ManagedUser, formatDate: string -> string, a: string, b: string)
    requires u.fullName == a + [','] + b && ',' !in a && ',' !in b
    requires forall j :: 1 <= j < |CsvHeader()| ==> ',' !in CsvFields(u, formatDate)[j]
    ensures |Split(Join(CsvFields(u, formatDate), ','), ',')| == |CsvHeader()| + 1
  {
    var f := CsvFields(u, formatDate);
    var g := [a, b] + f[1..];
    assert Join(f, ',') == f[0] + [','] + Join(f[1..], ',');
    assert Join(g, ',') == a + [','] + Join(g[1..], ',');
    assert g[1..] == [b] + f[1..];
    assert Join(g[1..], ',') == b + [','] + Join(f[1..], ',');
    assert Join(g, ',') == Join(f, ',');
    assert forall i :: 0 <= i < |g| ==> ',' !in g[i] by {
      forall i | 0 <= i < |g| ensures ',' !in g[i] {
        if i >= 2 {
          assert g[i] == f[i - 1];
        }
      }
    }
    SplitJoin(g, ',');
  }

  // ---------------------------------------------------------------
  // The page

  class UserManagementPage {
    /** The list as last fetched, newest first, and the counts computed with it. */
    var users: seq<ManagedUser>
    var stats: Stats
    var form: ManagedForm
    var showAddModal: bool
    /** The remote `users` table, by id, as far as this page writes it. */
    var table: map<string, ManagedUser>
    /** The text of the last `alert`. */
    var alertMessage: Option<string>

    constructor (remote: map<string, ManagedUser>)
      ensures users == [] && stats == Stats(0, 0, 0, 0) && form == InitialForm() && !showAddModal
      ensures table == remote && alertMessage.None?
    {
      users := [];
      stats := Stats(0, 0, 0, 0);
      form := InitialForm();
      showAddModal := false;
      table := remote;
      alertMessage := None;
    }

    /** `fetchUsers`; `fetched` is the query's result, `None` when it fails. */
    method FetchUsers(fetched: Option<seq<ManagedUser>>)
      modifies this`users, this`stats
      ensures fetched.Some? ==> users == fetched.value && stats == StatsOf(fetched.value)
      ensures fetched.None? ==> users == old(users) && stats == old(stats)
    {
      if fetched.None? {
        return;
      }
      users := fetched.value;
      stats := StatsOf(users);
    }

    /** The role select's `onChange`. */
    method HandleRoleSelect(role: string)
      modifies this`form
      ensures form == SelectRole(old(form), role)
    {
      form := form.(userRole := role, userType := RoleToType(role));
    }

    /**
     * `createUser`: the three checks, then the insert (refused when the
     * e-mail or phone is taken), then a refetch, a form reset and a closed
     * dialog.
     */
    method CreateUser(newId: string, createdAt: string, insertFails: bool, fetched: Option<seq<ManagedUser>>)
      modifies this`users, this`stats, this`form, this`showAddModal, this`table, this`alertMessage
      ensures var check := CheckNewUser(old(form).fullName, old(form).email, old(form).phone);
        check.Some? ==>
          alertMessage == check && table == old(table) && form == old(form)
          && users == old(users) && stats == old(stats) && showAddModal == old(showAddModal)
      ensures var check := CheckNewUser(old(form).fullName, old(form).email, old(form).phone);
        check.None? && insertFails ==>
          alertMessage == Some(CreateFailed)
          && table == old(table) && form == old(form)
          && users == old(users) && stats == old(stats) && showAddModal == old(showAddModal)
      ensures var check := CheckNewUser(old(form).fullName, old(form).email, old(form).phone);
        check.None? && !insertFails ==>
          table == old(table)[newId := NewManagedRow(newId, createdAt, old(form))]
          && form == InitialForm() && !showAddModal
          && alertMessage == Some(CreateDone)
          && (fetched.Some? ==> users == fetched.value && stats == StatsOf(fetched.value))
          && (fetched.None? ==> users == old(users) && stats == old(stats))
    {
      var check := CheckNewUser(form.fullName, form.email, form.phone);
      if check.Some? {
        alertMessage := check;
        return;
      }
      if insertFails {
        alertMessage := Some(CreateFailed);
        return;
      }
      table := table[newId := NewManagedRow(newId, createdAt, form)];
      FetchUsers(fetched);
      form := InitialForm();
      showAddModal := false;
      alertMessage := Some(CreateDone);
    }

    /**
     * `updateUserStatus`: after a successful write the loaded row changes;
     * the counts are not recomputed until the next fetch.
     */
    method UpdateUserStatus(userId: string, newStatus: string, updateFails: bool)
      modifies this`users, this`table, this`alertMessage
      ensures updateFails ==> users == old(users) && table == old(table) && alertMessage == Some(StatusFailed)
      ensures !updateFails ==> users == SetStatus(old(users), userId, newStatus)
      ensures !updateFails ==>
        table == (if userId in old(table) then old(table)[userId := old(table)[userId].(status := newStatus)] else old(table))
      ensures !updateFails ==> alertMessage == Some("User status updated to " + newStatus)
    {
      if updateFails {
        alertMessage := Some(StatusFailed);
        return;
      }
      if userId in table {
        table := table[userId := table[userId].(status := newStatus)];
      }
      users := SetStatus(users, userId, newStatus);
      alertMessage := Some("User status updated to " + newStatus);
    }

    /** `toggleUserVerification`: writes the negation of the flag the row showed. */
    method ToggleUserVerification(userId: string, currentVerified: bool, updateFails: bool)
      modifies this`users, this`table, this`alertMessage
      ensures updateFails ==> users == old(users) && table == old(table) && alertMessage == Some(VerifyFailed)
      ensures !updateFails ==> users == SetVerified(old(users), userId, !currentVerified)
      ensures !updateFails ==>
        table == (if userId in old(table) then old(table)[userId := old(table)[userId].(verified := !currentVerified)] else old(table))
      ensures !updateFails ==>
        alertMessage == Some("User " + (if currentVerified then "unverified" else "verified") + " successfully")
    {
      if updateFails {
        alertMessage := Some(VerifyFailed);
        return;
      }
      if userId in table {
        table := table[userId := table[userId].(verified := !currentVerified)];
      }
      users := SetVerified(users, userId, !currentVerified);
      alertMessage := Some("User " + (if !currentVerified then "verified" else "unverified") + " successfully");
    }
  }
}
