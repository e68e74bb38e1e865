/**
 * The admin user-types page: the users grouped by role and type, the
 * total, the per-type cards, the per-role counts, the role descriptions
 * and the list filter.
 */
module UserTypes {
  import opened Util
  import opened Text
  import opened Seqs
  import UserPermissions

  /** The columns of a `users` row the page selects, with the joined organization name. */
  datatype TypeUser = TypeUser(userRole: string, userType: string, subscriptionType: Option<string>, organizationName: Option<string>)

  /** One group: its role and type, how many users it has, and the first user's organization and subscription. */
  datatype TypeEntry = TypeEntry(userRole: string, userType: string, count: nat, organizationName: Option<string>, subscriptionType: Option<string>)

  /** The grouping key `${user_role}-${user_type}`. */
  function UserKey(u: TypeUser): string
  {
    u.userRole + "-" + u.userType
  }

  function EntryKey(e: TypeEntry): string
  {
    e.userRole + "-" + e.userType
  }

  /** The entry a user with `count` users in its group gives. */
  function Entry(u: TypeUser, count: nat): (e: TypeEntry)
    ensures EntryKey(e) == UserKey(u) && e.count == count
  {
    TypeEntry(u.userRole, u.userType, count, u.organizationName, u.subscriptionType)
  }

  // ---------------------------------------------------------------
  // The grouping, one user at a time

  /** The position of the first entry with `key`, or -1. */
  function IndexOfKey(entries: seq<TypeEntry>, key: string): (i: int)
    ensures -1 <= i < |entries|
    ensures i >= 0 ==> EntryKey(entries[i]) == key && forall j :: 0 <= j < i ==> EntryKey(entries[j]) != key
    ensures i == -1 ==> forall j :: 0 <= j < |entries| ==> EntryKey(entries[j]) != key
    decreases |entries|
  {
    if entries == [] then -1
    else if EntryKey(entries[0]) == key then 0
    else
      var r := IndexOfKey(entries[1..], key);
      assert forall j :: 1 <= j < |entries| ==> entries[j] == entries[1..][j - 1];
      if r == -1 then -1 else r + 1
  }

  /** One `forEach` step: a known key counts one more, a new key is added with count 1. */
  function AddUser(entries: seq<TypeEntry>, u: TypeUser): seq<TypeEntry>
  {
    var i := IndexOfKey(entries, UserKey(u));
    if i >= 0 then entries[i := entries[i].(count := entries[i].count + 1)]
    else entries + [Entry(u, 1)]
  }

  /** The grouped entries, in the order a JavaScript `Map` keeps: first insertion first. */
  function Aggregate(users: seq<TypeUser>): seq<TypeEntry>
    decreases |users|
  {
    if users == [] then [] else AddUser(Aggregate(users[..|users| - 1]), users[|users| - 1])
  }

  predicate DistinctKeys(entries: seq<TypeEntry>)
  {
    forall a, b :: 0 <= a < b < |entries| ==> EntryKey(entries[a]) != EntryKey(entries[b])
  }

  lemma AddUserDistinct(entries: seq<TypeEntry>, u: TypeUser)
    requires DistinctKeys(entries)
    ensures DistinctKeys(AddUser(entries, u))
  {
    var i := IndexOfKey(entries, UserKey(u));
    var r := AddUser(entries, u);
    if i >= 0 {
      assert forall k :: 0 <= k < |r| ==> EntryKey(r[k]) == EntryKey(entries[k]);
    } else {
      assert forall k :: 0 <= k < |entries| ==> r[k] == entries[k];
    }
  }

  /** No two entries share a key. */
  lemma {:induction false} AggregateDistinct(users: seq<TypeUser>)
    ensures DistinctKeys(Aggregate(users))
    decreases |users|
  {
    if users != [] {
      AggregateDistinct(users[..|users| - 1]);
      AddUserDistinct(Aggregate(users[..|users| - 1]), users[|users| - 1]);
    }
  }

  // ---------------------------------------------------------------
  // An independent description of the grouping

  /** How many users have `key`. */
  function CountKey(users: seq<TypeUser>, key: string): nat
    decreases |users|
  {
    if users == [] then 0
    else CountKey(users[..|users| - 1], key) + (if UserKey(users[|users| - 1]) == key then 1 else 0)
  }

  /** User `f` is the first with its key. */
  predicate FirstOfKey(users: seq<TypeUser>, f: int)
  {
    0 <= f < |users| && forall g :: 0 <= g < f ==> UserKey(users[g]) != UserKey(users[f])
  }

  lemma FirstOfKeyPrefix(users: seq<TypeUser>, n: nat, f: int)
    requires n <= |users| && 0 <= f < n
    ensures FirstOfKey(users[..n], f) <==> FirstOfKey(users, f)
  {
    assert forall g :: 0 <= g <= f ==> users[..n][g] == users[g];
  }

  /** The positions of the users that are first with their key, in increasing order. */
  function FirstIndices(users: seq<TypeUser>): (firsts: seq<int>)
    ensures forall k :: 0 <= k < |firsts| ==> 0 <= firsts[k] < |users|
    decreases |users|
  {
    if users == [] then []
    else
      var n := |users| - 1;
      FirstIndices(users[..n]) + (if FirstOfKey(users, n) then [n] else [])
  }

  /** The first positions are exactly the users that are first with their key, in increasing order. */
  lemma {:induction false} FirstIndicesFacts(users: seq<TypeUser>)
    ensures forall k :: 0 <= k < |FirstIndices(users)| ==> FirstOfKey(users, FirstIndices(users)[k])
    ensures forall f :: FirstOfKey(users, f) ==> f in FirstIndices(users)
    ensures forall a, b :: 0 <= a < b < |FirstIndices(users)| ==> FirstIndices(users)[a] < FirstIndices(users)[b]
    decreases |users|
  {
    if users != [] {
      var n := |users| - 1;
      var p := FirstIndices(users[..n]);
      FirstIndicesFacts(users[..n]);
      forall f | 0 <= f < n ensures FirstOfKey(users[..n], f) <==> FirstOfKey(users, f) {
        FirstOfKeyPrefix(users, n, f);
      }
      FirstIndicesFactsStep(users, n, p);
    }
  }

  /** The step of `FirstIndicesFacts`: the facts for the list without its last user carry over. */
  lemma FirstIndicesFactsStep(users: seq<TypeUser>, n: int, p: seq<int>)
    requires n == |users| - 1 >= 0
    requires FirstIndices(users) == p + (if FirstOfKey(users, n) then [n] else [])
    requires forall k :: 0 <= k < |p| ==> 0 <= p[k] < n && FirstOfKey(users, p[k])
    requires forall f :: 0 <= f < n && FirstOfKey(users, f) ==> f in p
    requires forall a, b :: 0 <= a < b < |p| ==> p[a] < p[b]
    ensures forall k :: 0 <= k < |FirstIndices(users)| ==> FirstOfKey(users, FirstIndices(users)[k])
    ensures forall f :: FirstOfKey(users, f) ==> f in FirstIndices(users)
    ensures forall a, b :: 0 <= a < b < |FirstIndices(users)| ==> FirstIndices(users)[a] < FirstIndices(users)[b]
  {
  }

  /**
   * The grouping stated directly: one entry per user that is first with its
   * key, in their order, carrying that user's fields and the number of users
   * with the key.
   */
  function GroupBy(users: seq<TypeUser>): seq<TypeEntry>
  {
    var firsts := FirstIndices(users);
    seq(|firsts|, k requires 0 <= k < |firsts| => Entry(users[firsts[k]], CountKey(users, UserKey(users[firsts[k]]))))
  }

  lemma GroupByAt(users: seq<TypeUser>, k: int)
    requires 0 <= k < |FirstIndices(users)|
    ensures |GroupBy(users)| == |FirstIndices(users)|
    ensures GroupBy(users)[k] == Entry(users[FirstIndices(users)[k]], CountKey(users, UserKey(users[FirstIndices(users)[k]])))
  {
  }

  /** The first positions of a list with one more user: those of the shorter list, and the new one if its key is new. */
  lemma FirstIndicesStep(users: seq<TypeUser>)
    requires users != []
    ensures var n := |users| - 1;
      FirstIndices(users) == FirstIndices(users[..n]) + (if FirstOfKey(users, n) then [n] else [])
  {
  }

  lemma LastSplit(users: seq<TypeUser>)
    requires users != []
    ensures users == users[..|users| - 1] + [users[|users| - 1]]
  {
  }

  lemma AggregateStep(users: seq<TypeUser>)
    requires users != []
    ensures Aggregate(users) == AddUser(Aggregate(users[..|users| - 1]), users[|users| - 1])
  {
  }

  lemma AddUserNew(entries: seq<TypeEntry>, u: TypeUser)
    requires forall k :: 0 <= k < |entries| ==> EntryKey(entries[k]) != UserKey(u)
    ensures AddUser(entries, u) == entries + [Entry(u, 1)]
  {
  }

  lemma AddUserFound(entries: seq<TypeEntry>, u: TypeUser, i: int)
    requires DistinctKeys(entries) && 0 <= i < |entries| && EntryKey(entries[i]) == UserKey(u)
    ensures AddUser(entries, u) == entries[i := entries[i].(count := entries[i].count + 1)]
  {
    var j := IndexOfKey(entries, UserKey(u));
    assert j == i;
  }

  /** Every user has a first user with the same key at or before it. */
  lemma {:induction false} FirstExists(users: seq<TypeUser>, g: int)
    requires 0 <= g < |users|
    ensures exists f :: 0 <= f <= g && FirstOfKey(users, f) && UserKey(users[f]) == UserKey(users[g])
    decreases g
  {
    if !FirstOfKey(users, g) {
      var h :| 0 <= h < g && UserKey(users[h]) == UserKey(users[g]);
      FirstExists(users, h);
    }
  }

  lemma {:induction false} CountKeyZero(users: seq<TypeUser>, key: string)
    requires forall g :: 0 <= g < |users| ==> UserKey(users[g]) != key
    ensures CountKey(users, key) == 0
    decreases |users|
  {
    if users != [] {
      var n := |users| - 1;
      assert forall g :: 0 <= g < n ==> users[..n][g] == users[g];
      CountKeyZero(users[..n], key);
    }
  }

  lemma {:induction false} CountKeyPositive(users: seq<TypeUser>, g: int)
    requires 0 <= g < |users|
    ensures CountKey(users, UserKey(users[g])) >= 1
    decreases |users|
  {
    var n := |users| - 1;
    if g < n {
      assert users[..n][g] == users[g];
      CountKeyPositive(users[..n], g);
    }
  }

  /** The user-by-user grouping is exactly the direct description. */
  lemma {:induction false} AggregateIsGroupBy(users: seq<TypeUser>)
    ensures Aggregate(users) == GroupBy(users)
    decreases |users|
  {
    if users != [] {
      var n := |users| - 1;
      AggregateIsGroupBy(users[..n]);
      AggregateDistinct(users[..n]);
      if FirstOfKey(users, n) {
        FirstNew(users);
      } else {
        FirstSeen(users);
      }
    }
  }

  /** The step of `AggregateIsGroupBy` for a user whose key is new. */
  lemma FirstNew(users: seq<TypeUser>)
    requires users != [] && FirstOfKey(users, |users| - 1)
    requires Aggregate(users[..|users| - 1]) == GroupBy(users[..|users| - 1])
    ensures Aggregate(users) == GroupBy(users)
  {
    var n := |users| - 1;
    var p := users[..n];
    var u := users[n];
    LastSplit(users);
    FirstIndicesStep(users);
    NewKeyAbsent(users, p, u);
    AggregateStep(users);
    AddUserNew(Aggregate(p), u);
    NewPointwise(users, p, u);
  }

  /** A key seen first at the last user has no entry and no count before it. */
  lemma NewKeyAbsent(users: seq<TypeUser>, p: seq<TypeUser>, u: TypeUser)
    requires users == p + [u] && FirstOfKey(users, |p|)
    ensures forall k :: 0 <= k < |GroupBy(p)| ==> EntryKey(GroupBy(p)[k]) != UserKey(u)
    ensures CountKey(p, UserKey(u)) == 0
  {
    forall k | 0 <= k < |GroupBy(p)| ensures EntryKey(GroupBy(p)[k]) != UserKey(u) {
      GroupByAt(p, k);
      assert users[FirstIndices(p)[k]] == p[FirstIndices(p)[k]];
    }
    forall g | 0 <= g < |p| ensures UserKey(p[g]) != UserKey(u) {
      assert users[g] == p[g];
    }
    CountKeyZero(p, UserKey(u));
  }

  lemma NewPointwise(users: seq<TypeUser>, p: seq<TypeUser>, u: TypeUser)
    requires users == p + [u]
    requires FirstIndices(users) == FirstIndices(p) + [|p|]
    requires forall k :: 0 <= k < |GroupBy(p)| ==> EntryKey(GroupBy(p)[k]) != UserKey(u)
    requires CountKey(p, UserKey(u)) == 0
    ensures GroupBy(p) + [Entry(u, 1)] == GroupBy(users)
  {
    assert users[..|users| - 1] == p;
    var fp := FirstIndices(p);
    var r := GroupBy(p) + [Entry(u, 1)];
    var gb := GroupBy(users);
    GroupByAt(users, 0);
    forall k | 0 <= k < |gb| ensures gb[k] == r[k] {
      GroupByAt(users, k);
      if k < |fp| {
        GroupByAt(p, k);
      }
    }
  }

  /** The step of `AggregateIsGroupBy` for a user whose key was seen before. */
  lemma FirstSeen(users: seq<TypeUser>)
    requires users != [] && !FirstOfKey(users, |users| - 1)
    requires Aggregate(users[..|users| - 1]) == GroupBy(users[..|users| - 1])
    requires DistinctKeys(Aggregate(users[..|users| - 1]))
    ensures Aggregate(users) == GroupBy(users)
  {
    var n := |users| - 1;
    var p := users[..n];
    var u := users[n];
    LastSplit(users);
    FirstIndicesStep(users);
    var g :| 0 <= g < n && UserKey(users[g]) == UserKey(u);
    assert p[g] == users[g];
    SeenEntry(p, u, g);
    var k0 :| 0 <= k0 < |GroupBy(p)| && EntryKey(GroupBy(p)[k0]) == UserKey(u);
    SeenStep(users, p, u, k0);
    AggregateStep(users);
  }

  lemma SeenStep(users: seq<TypeUser>, p: seq<TypeUser>, u: TypeUser, k0: int)
    requires users == p + [u]
    requires FirstIndices(users) == FirstIndices(p)
    requires Aggregate(p) == GroupBy(p) && DistinctKeys(Aggregate(p))
    requires 0 <= k0 < |GroupBy(p)| && EntryKey(GroupBy(p)[k0]) == UserKey(u)
    ensures AddUser(Aggregate(p), u) == GroupBy(users)
  {
    AddUserFound(Aggregate(p), u, k0);
    SeenPointwise(users, p, u, k0);
  }

  /** A key some user already has has an entry. */
  lemma SeenEntry(p: seq<TypeUser>, u: TypeUser, g: int)
    requires 0 <= g < |p| && UserKey(p[g]) == UserKey(u)
    ensures exists k0 :: 0 <= k0 < |GroupBy(p)| && EntryKey(GroupBy(p)[k0]) == UserKey(u)
  {
    var fp := FirstIndices(p);
    FirstIndicesFacts(p);
    FirstExists(p, g);
    var f0 :| 0 <= f0 <= g && FirstOfKey(p, f0) && UserKey(p[f0]) == UserKey(p[g]);
    var k0 :| 0 <= k0 < |fp| && fp[k0] == f0;
    GroupByAt(p, k0);
  }

  lemma SeenPointwise(users: seq<TypeUser>, p: seq<TypeUser>, u: TypeUser, k0: int)
    requires users == p + [u]
    requires FirstIndices(users) == FirstIndices(p)
    requires DistinctKeys(GroupBy(p))
    requires 0 <= k0 < |GroupBy(p)| && EntryKey(GroupBy(p)[k0]) == UserKey(u)
    ensures GroupBy(p)[k0 := GroupBy(p)[k0].(count := GroupBy(p)[k0].count + 1)] == GroupBy(users)
  {
    assert users[..|users| - 1] == p;
    var a := GroupBy(p);
    var r := a[k0 := a[k0].(count := a[k0].count + 1)];
    var gb := GroupBy(users);
    GroupByAt(users, 0);
    GroupByAt(p, 0);
    forall k | 0 <= k < |gb| ensures gb[k] == r[k] {
      GroupByAt(users, k);
      GroupByAt(p, k);
      if k != k0 {
        assert EntryKey(a[k]) != EntryKey(a[k0]);
      }
    }
  }

  // ---------------------------------------------------------------
  // Properties of the grouping

  /**
   * There is an entry for a key exactly when some user has it, every count
   * is at least one, and an entry's organization and subscription are its
   * first user's.
   */
  lemma AggregateEntries(users: seq<TypeUser>, k: int)
    requires 0 <= k < |Aggregate(users)|
    ensures Aggregate(users)[k].count >= 1
    ensures exists f :: FirstOfKey(users, f) && Aggregate(users)[k] == Entry(users[f], CountKey(users, UserKey(users[f])))
  {
    AggregateIsGroupBy(users);
    FirstIndicesFacts(users);
    var firsts := FirstIndices(users);
    var f := firsts[k];
    FilterMembership(users, (u: TypeUser) => UserKey(u) == UserKey(users[f]), users[f]);
    assert Aggregate(users)[k] == Entry(users[f], CountKey(users, UserKey(users[f])));
  }

  /** Every user's key has an entry. */
  lemma AggregateCoversUsers(users: seq<TypeUser>, g: int)
    requires 0 <= g < |users|
    ensures exists k :: 0 <= k < |Aggregate(users)| && EntryKey(Aggregate(users)[k]) == UserKey(users[g])
  {
    AggregateIsGroupBy(users);
    FirstIndicesFacts(users);
    FirstExists(users, g);
    var f :| 0 <= f <= g && FirstOfKey(users, f) && UserKey(users[f]) == UserKey(users[g]);
    var firsts := FirstIndices(users);
    var k :| 0 <= k < |firsts| && firsts[k] == f;
    assert EntryKey(Aggregate(users)[k]) == UserKey(users[f]);
  }

  /** The entries appear in the order their keys first occur among the users. */
  lemma AggregateOrder(users: seq<TypeUser>, a: int, b: int, fa: int, fb: int)
    requires 0 <= a < b < |Aggregate(users)|
    requires FirstOfKey(users, fa) && UserKey(users[fa]) == EntryKey(Aggregate(users)[a])
    requires FirstOfKey(users, fb) && UserKey(users[fb]) == EntryKey(Aggregate(users)[b])
    ensures fa < fb
  {
    AggregateIsGroupBy(users);
    FirstIndicesFacts(users);
    var firsts := FirstIndices(users);
    GroupByAt(users, a);
    GroupByAt(users, b);
    FirstUnique(users, fa, firsts[a]);
    FirstUnique(users, fb, firsts[b]);
  }

  lemma FirstUnique(users: seq<TypeUser>, f1: int, f2: int)
    requires FirstOfKey(users, f1) && FirstOfKey(users, f2) && UserKey(users[f1]) == UserKey(users[f2])
    ensures f1 == f2
  {
  }

  function SumCounts(entries: seq<TypeEntry>): nat
    decreases |entries|
  {
    if entries == [] then 0 else entries[0].count + SumCounts(entries[1..])
  }

  lemma {:induction false} SumAppend(entries: seq<TypeEntry>, e: TypeEntry)
    ensures SumCounts(entries + [e]) == SumCounts(entries) + e.count
    decreases |entries|
  {
    if entries != [] {
      assert (entries + [e])[1..] == entries[1..] + [e];
      SumAppend(entries[1..], e);
    }
  }

  lemma {:induction false} SumIncrement(entries: seq<TypeEntry>, i: nat)
    requires i < |entries|
    ensures SumCounts(entries[i := entries[i].(count := entries[i].count + 1)]) == SumCounts(entries) + 1
    decreases |entries|
  {
    var r := entries[i := entries[i].(count := entries[i].count + 1)];
    if i > 0 {
      assert r[1..] == entries[1..][i - 1 := entries[1..][i - 1].(count := entries[1..][i - 1].count + 1)];
      SumIncrement(entries[1..], i - 1);
    } else {
      assert r[1..] == entries[1..];
    }
  }

  /** `totalUsers`: the counts add up to the number of users fetched. */
  lemma {:induction false} TotalIsUserCount(users: seq<TypeUser>)
    ensures SumCounts(Aggregate(users)) == |users|
    decreases |users|
  {
    if users != [] {
      var n := |users| - 1;
      TotalIsUserCount(users[..n]);
      var a := Aggregate(users[..n]);
      var i := IndexOfKey(a, UserKey(users[n]));
      if i >= 0 {
        SumIncrement(a, i);
      } else {
        SumAppend(a, Entry(users[n], 1));
      }
    }
  }

  /** With roles free of '-', the key tells the role and the type apart. */
  lemma KeyInjective(r1: string, t1: string, r2: string, t2: string)
    requires '-' !in r1 && '-' !in r2 && r1 + "-" + t1 == r2 + "-" + t2
    ensures r1 == r2 && t1 == t2
  {
    var key := r1 + "-" + t1;
    SplitFirstPart(r1, '-', t1);
    assert r2 + "-" + t2 == r2 + ['-'] + t2;
    SplitFirstPart(r2, '-', t2);
    assert key == r1 + ['-'] + t1;
    assert t1 == key[|r1| + 1..];
    assert t2 == key[|r2| + 1..];
  }

  /** Two users whose role and type differ but whose keys collide share one entry. */
  lemma KeyCollision()
    ensures var users := [TypeUser("a-b", "c", None, None), TypeUser("a", "b-c", None, None)];
      Aggregate(users) == [TypeEntry("a-b", "c", 2, None, None)]
  {
    var users := [TypeUser("a-b", "c", None, None), TypeUser("a", "b-c", None, None)];
    var one := users[..1];
    assert one[..0] == [];
    AggregateStep(one);
    AddUserNew([], users[0]);
    assert Aggregate(one) == [Entry(users[0], 1)];
    AggregateStep(users);
    AddUserFound(Aggregate(one), users[1], 0);
  }

  // ---------------------------------------------------------------
  // Totals and cards

  /** The count on a type card: the counts of the entries of that type. */
  function TypeCard(entries: seq<TypeEntry>, t: string): nat
    decreases |entries|
  {
    if entries == [] then 0 else (if entries[0].userType == t then entries[0].count else 0) + TypeCard(entries[1..], t)
  }

  function TypeCardsTotal(entries: seq<TypeEntry>): nat
  {
    TypeCard(entries, "end_user") + TypeCard(entries, "admin") + TypeCard(entries, "staff")
    + TypeCard(entries, "partner") + TypeCard(entries, "system")
  }

  /** The five cards add up to the total exactly when every entry (each with at least one user) has one of the five types. */
  lemma {:induction false} CardsAddUp(entries: seq<TypeEntry>)
    requires forall k :: 0 <= k < |entries| ==> entries[k].count >= 1
    ensures TypeCardsTotal(entries) <= SumCounts(entries)
    ensures TypeCardsTotal(entries) == SumCounts(entries) <==>
      forall k :: 0 <= k < |entries| ==> UserPermissions.KnownType(entries[k].userType)
    decreases |entries|
  {
    if entries != [] {
      CardsAddUp(entries[1..]);
      assert forall k :: 1 <= k < |entries| ==> entries[k] == entries[1..][k - 1];
    }
  }

  lemma {:induction false} TypeCardAppend(entries: seq<TypeEntry>, e: TypeEntry, t: string)
    ensures TypeCard(entries + [e], t) == TypeCard(entries, t) + (if e.userType == t then e.count else 0)
    decreases |entries|
  {
    if entries != [] {
      assert (entries + [e])[1..] == entries[1..] + [e];
      TypeCardAppend(entries[1..], e, t);
    }
  }

  lemma {:induction false} TypeCardIncrement(entries: seq<TypeEntry>, i: nat, t: string)
    requires i < |entries|
    ensures TypeCard(entries[i := entries[i].(count := entries[i].count + 1)], t) ==
      TypeCard(entries, t) + (if entries[i].userType == t then 1 else 0)
    decreases |entries|
  {
    var r := entries[i := entries[i].(count := entries[i].count + 1)];
    if i > 0 {
      assert r[1..] == entries[1..][i - 1 := entries[1..][i - 1].(count := entries[1..][i - 1].count + 1)];
      TypeCardIncrement(entries[1..], i - 1, t);
    } else {
      assert r[1..] == entries[1..];
    }
  }

  /** With roles free of '-', a type card shows the number of users of that type. */
  lemma {:induction false} TypeCardCountsUsers(users: seq<TypeUser>, t: string)
    requires forall g :: 0 <= g < |users| ==> '-' !in users[g].userRole
    ensures TypeCard(Aggregate(users), t) == |Filter(users, (u: TypeUser) => u.userType == t)|
    decreases |users|
  {
    if users != [] {
      var n := |users| - 1;
      var p := users[..n];
      var u := users[n];
      assert forall g :: 0 <= g < n ==> p[g] == users[g];
      TypeCardCountsUsers(p, t);
      LastSplit(users);
      FilterAppend(p, [u], (u: TypeUser) => u.userType == t);
      AggregateStep(users);
      TypeCardStep(p, u, t);
    }
  }

  /** One more user adds one to the card of its type and nothing to the others. */
  lemma TypeCardStep(p: seq<TypeUser>, u: TypeUser, t: string)
    requires forall g :: 0 <= g < |p| ==> '-' !in p[g].userRole
    requires '-' !in u.userRole
    ensures TypeCard(AddUser(Aggregate(p), u), t) == TypeCard(Aggregate(p), t) + (if u.userType == t then 1 else 0)
  {
    var a := Aggregate(p);
    var i := IndexOfKey(a, UserKey(u));
    if i >= 0 {
      EntryRoleClean(p, i);
      KeyInjective(a[i].userRole, a[i].userType, u.userRole, u.userType);
      assert AddUser(a, u) == a[i := a[i].(count := a[i].count + 1)];
      TypeCardIncrement(a, i, t);
    } else {
      assert AddUser(a, u) == a + [Entry(u, 1)];
      TypeCardAppend(a, Entry(u, 1), t);
    }
  }

  /** An entry's role is some user's role. */
  lemma EntryRoleClean(p: seq<TypeUser>, i: int)
    requires forall g :: 0 <= g < |p| ==> '-' !in p[g].userRole
    requires 0 <= i < |Aggregate(p)|
    ensures '-' !in Aggregate(p)[i].userRole
  {
    AggregateEntries(p, i);
    var f :| FirstOfKey(p, f) && Aggregate(p)[i] == Entry(p[f], CountKey(p, UserKey(p[f])));
    assert Aggregate(p)[i].userRole == p[f].userRole;
  }

  /** A role's count: the first entry with that role, or 0. */
  function RoleCount(entries: seq<TypeEntry>, role: string): nat
    decreases |entries|
  {
    if entries == [] then 0 else if entries[0].userRole == role then entries[0].count else RoleCount(entries[1..], role)
  }

  /** All users with the role, over every entry. */
  function RoleTotal(entries: seq<TypeEntry>, role: string): nat
    decreases |entries|
  {
    if entries == [] then 0 else (if entries[0].userRole == role then entries[0].count else 0) + RoleTotal(entries[1..], role)
  }

  lemma {:induction false} RoleTotalAtLeast(entries: seq<TypeEntry>, role: string, j: int)
    requires 0 <= j < |entries| && entries[j].userRole == role
    ensures RoleTotal(entries, role) >= entries[j].count
    decreases |entries|
  {
    if j > 0 {
      RoleTotalAtLeast(entries[1..], role, j - 1);
    }
  }

  /** A role held under two types shows fewer users than it has: only the first entry counts. */
  lemma {:induction false} RoleCountUndercounts(entries: seq<TypeEntry>, role: string, i: int, j: int)
    requires forall k :: 0 <= k < |entries| ==> entries[k].count >= 1
    requires 0 <= i < j < |entries| && entries[i].userRole == role && entries[j].userRole == role
    ensures RoleCount(entries, role) < RoleTotal(entries, role)
    decreases |entries|
  {
    assert forall k :: 1 <= k < |entries| ==> entries[k] == entries[1..][k - 1];
    if entries[0].userRole == role {
      RoleTotalAtLeast(entries[1..], role, j - 1);
    } else {
      RoleCountUndercounts(entries[1..], role, i - 1, j - 1);
    }
  }

  // ---------------------------------------------------------------
  // Descriptions and the list filter

  function Descriptions(): map<string, string>
  {
    map[
      "customer" := "Regular bike-sharing users",
      "premium_customer" := "Premium subscription users",
      "student" := "University/school students",
      "corporate_user" := "Company employees",
      "tourist" := "Visiting tourists",
      "super_admin" := "Full system administrator",
      "operations_manager" := "Operations and fleet manager",
      "finance_manager" := "Financial operations manager",
      "customer_support" := "Customer service representative",
      "data_analyst" := "Data analysis and reporting",
      "field_technician" := "Bike maintenance technician",
      "redistributor" := "Bike redistribution staff",
      "charging_staff" := "Battery charging staff",
      "quality_inspector" := "Quality assurance inspector",
      "payment_partner" := "Payment service provider",
      "location_partner" := "Location/parking partner",
      "corporate_partner" := "Corporate partnership",
      "government_official" := "Government liaison",
      "api_service" := "API service account",
      "automated_system" := "Automated system account",
      "test_account" := "Testing account"
    ]
  }

  /** `getUserRoleDescription`. */
  function RoleDescription(role: string): string
  {
    if role in Descriptions() && Descriptions()[role] != "" then Descriptions()[role] else "Unknown role"
  }

  /** 'Unknown role' shows exactly for roles outside the table, which names the same roles as the permissions page. */
  lemma DescriptionIff(role: string)
    ensures RoleDescription(role) == "Unknown role" <==> role !in Descriptions()
    ensures role in Descriptions() <==> role in UserPermissions.RoleDefinitions()
  {
  }

  /** `filteredUserTypes`: role or type contains the lower-cased term, and the type filter is 'all' or equal. */
  predicate TypeListed(e: TypeEntry, searchTerm: string, filterType: string)
  {
    var term := Lower(searchTerm);
    (Contains(Lower(e.userRole), term) || Contains(Lower(e.userType), term))
    && (filterType == "all" || e.userType == filterType)
  }

  function FilteredTypes(entries: seq<TypeEntry>, searchTerm: string, filterType: string): (r: seq<TypeEntry>)
    ensures |r| <= |entries|
    ensures forall k :: 0 <= k < |r| ==> TypeListed(r[k], searchTerm, filterType)
  {
    Filter(entries, (e: TypeEntry) => TypeListed(e, searchTerm, filterType))
  }

  /** An entry is listed exactly when it exists and matches; the order is kept. */
  lemma FilteredTypesExactly(entries: seq<TypeEntry>, searchTerm: string, filterType: string, e: TypeEntry)
    ensures e in FilteredTypes(entries, searchTerm, filterType) <==> e in entries && TypeListed(e, searchTerm, filterType)
    ensures IsSubsequence(FilteredTypes(entries, searchTerm, filterType), entries)
  {
    var p := (e: TypeEntry) => TypeListed(e, searchTerm, filterType);
    FilterMembership(entries, p, e);
    FilterIsSubsequence(entries, p);
  }

  // ---------------------------------------------------------------
  // The page

  /** The map of the `forEach` loop, listed in its insertion order, is the list of entries. */
  ghost predicate Represents(typeMap: map<string, TypeEntry>, order: seq<string>, entries: seq<TypeEntry>)
  {
    |order| == |entries|
    && (forall k :: 0 <= k < |order| ==> order[k] in typeMap && typeMap[order[k]] == entries[k] && EntryKey(entries[k]) == order[k])
    && (forall key :: key in typeMap ==> key in order)
  }

  lemma PrefixStep(users: seq<TypeUser>, i: int)
    requires 0 <= i < |users|
    ensures Aggregate(users[..i + 1]) == AddUser(Aggregate(users[..i]), users[i])
  {
    assert users[..i + 1][..i] == users[..i];
    AggregateStep(users[..i + 1]);
  }

  /** A key already in the map: counting one more there follows `AddUser`. */
  lemma CountedStep(typeMap: map<string, TypeEntry>, order: seq<string>, entries: seq<TypeEntry>, u: TypeUser)
    requires Represents(typeMap, order, entries) && DistinctKeys(entries) && UserKey(u) in typeMap
    ensures var key := UserKey(u);
      Represents(typeMap[key := typeMap[key].(count := typeMap[key].count + 1)], order, AddUser(entries, u))
  {
    var key := UserKey(u);
    var k :| 0 <= k < |order| && order[k] == key;
    AddUserFound(entries, u, k);
  }

  /** A key not in the map: adding it at the end follows `AddUser`. */
  lemma NewKeyStep(typeMap: map<string, TypeEntry>, order: seq<string>, entries: seq<TypeEntry>, u: TypeUser)
    requires Represents(typeMap, order, entries) && UserKey(u) !in typeMap
    ensures var key := UserKey(u);
      Represents(typeMap[key := Entry(u, 1)], order + [key], AddUser(entries, u))
  {
    AddUserNew(entries, u);
  }

  /** The `forEach` loop of `fetchUserTypes`: the map from key to entry, with its keys in insertion order. */
  method GroupIntoMap(users: seq<TypeUser>) returns (typeMap: map<string, TypeEntry>, order: seq<string>)
    ensures Represents(typeMap, order, Aggregate(users))
  {
    typeMap, order := map[], [];
    var i := 0;
    while i < |users|
      invariant 0 <= i <= |users|
      invariant Represents(typeMap, order, Aggregate(users[..i]))
    {
      AggregateDistinct(users[..i]);
      PrefixStep(users, i);
      var key := UserKey(users[i]);
      if key in typeMap {
        CountedStep(typeMap, order, Aggregate(users[..i]), users[i]);
        typeMap := typeMap[key := typeMap[key].(count := typeMap[key].count + 1)];
      } else {
        NewKeyStep(typeMap, order, Aggregate(users[..i]), users[i]);
        typeMap := typeMap[key := Entry(users[i], 1)];
        order := order + [key];
      }
      i := i + 1;
    }
    assert users[..|users|] == users;
  }

  /** `Array.from(typeMap.values())`: the entries in the order of their keys. */
  method MapValues(typeMap: map<string, TypeEntry>, order: seq<string>) returns (values: seq<TypeEntry>)
    requires forall k :: 0 <= k < |order| ==> order[k] in typeMap
    ensures |values| == |order| && forall k :: 0 <= k < |order| ==> values[k] == typeMap[order[k]]
  {
    values := [];
    var k := 0;
    while k < |order|
      invariant 0 <= k <= |order|
      invariant |values| == k && forall j :: 0 <= j < k ==> values[j] == typeMap[order[j]]
    {
      values := values + [typeMap[order[k]]];
      k := k + 1;
    }
  }

  class UserTypesPage {
    var userTypes: seq<TypeEntry>
    var loading: bool

    constructor ()
      ensures userTypes == [] && loading
    {
      userTypes := [];
      loading := true;
    }

    /** `fetchUserTypes`; `data` is the query's result, `None` when it fails. */
    method FetchUserTypes(data: Option<seq<TypeUser>>)
      modifies this
      ensures !loading
      ensures data.Some? ==> userTypes == Aggregate(data.value)
      ensures data.None? ==> userTypes == old(userTypes)
    {
      loading := true;
      if data.None? {
        loading := false;
        return;
      }
      var typeMap, order := GroupIntoMap(data.value);
      var values := MapValues(typeMap, order);
      assert values == Aggregate(data.value);
      userTypes := values;
      loading := false;
    }
  }
}
