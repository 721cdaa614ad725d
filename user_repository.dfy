/** The read-only queries of the user repository (internal/repository/user.go):
    user lookup and the two ownership checks. Each is one database round
    trip; `fault` is the failure, if any, that the database reports for it.
    The two writes, CreateUser and DeleteUser, are methods of Store.Store. */
module UserRepository {
  import opened Base
  import opened Models
  import opened Schema

  /** The row written for a sign-up record: login and password verbatim.
      The row has no id of its own yet; the database assigns one. */
  function ToDaUser(user: UserAuth): (row: UserRow)
    ensures row.name == user.name && row.password == user.password
  {
    UserRow(user.name, user.password)
  }

  /** The record a stored row is read back as, under the row's key. */
  function FromDaUser(id: Uuid, row: UserRow): (user: User)
    ensures user.id == id && ToDaUser(UserAuth(user.name, user.password)) == row
  {
    User(id, row.name, row.password)
  }

  /** Storing a sign-up record and reading it back gives the same login and
      password, under the id the store assigned. */
  lemma DaUserRoundTrip(id: Uuid, user: UserAuth)
    ensures FromDaUser(id, ToDaUser(user)) == User(id, user.name, user.password)
  {
  }

  /** The smallest key of a non-empty user table: the row `First` returns
      when the query has no condition (GORM orders by the primary key). */
  function LeastUserId(users: Users): (k: Uuid)
    requires users != map[]
    ensures k in users && forall k' :: k' in users ==> k <= k'
  {
    LeastOf(users.Keys)
  }

  /** Every non-empty set of keys has a least element. */
  lemma {:induction false} LeastIn(ks: set<Uuid>) returns (least: Uuid)
    requires ks != {}
    ensures least in ks && forall k' :: k' in ks ==> least <= k'
    decreases ks
  {
    var x :| x in ks;
    var rest := ks - {x};
    if rest == {} {
      least := x;
    } else {
      var m := LeastIn(rest);
      least := if x <= m then x else m;
    }
    forall k' | k' in ks
      ensures least <= k'
    {
      if k' != x {
        assert k' in rest;
      }
    }
  }

  lemma LeastExists(ks: set<Uuid>)
    requires ks != {}
    ensures exists k :: k in ks && forall k' :: k' in ks ==> k <= k'
  {
    var k := LeastIn(ks);
  }

  function LeastOf(ks: set<Uuid>): (k: Uuid)
    requires ks != {}
    ensures k in ks && forall k' :: k' in ks ==> k <= k'
  {
    LeastExists(ks);
    var k :| k in ks && forall k' :: k' in ks ==> k <= k';
    k
  }

  /** GetUserByID: `First` on a row whose key is the id. GORM adds no
      condition for the zero UUID, so the nil id reads the user with the
      smallest key. "No row" becomes ErrUserNotFound, other failures are
      wrapped. */
  function GetUserByID(users: Users, id: Uuid, fault: Option<Error>): (r: Result<User>)
    ensures r.Success? <==> fault.None? && (if id == 0 then users != map[] else id in users)
    ensures r.Success? ==> r.value.id in users && ToDaUser(UserAuth(r.value.name, r.value.password)) == users[r.value.id]
    ensures r.Success? && id != 0 ==> r.value.id == id
    ensures r.Success? && id == 0 ==> forall k :: k in users ==> r.value.id <= k
    ensures fault.None? && r.Failure? ==> r == Failure(UserNotFound)
    ensures fault.Some? && !Is(fault.value, RecordNotFound) ==>
              r.Failure? && r.error != UserNotFound && Cause(r.error) == Cause(fault.value)
  {
    if fault.Some? then
      if Is(fault.value, RecordNotFound) then Failure(UserNotFound)
      else Failure(Wrapped(GettingUserById, fault.value))
    else if id == 0 then
      if users == map[] then Failure(UserNotFound)
      else Success(FromDaUser(LeastUserId(users), users[LeastUserId(users)]))
    else if id !in users then Failure(UserNotFound)
    else Success(FromDaUser(id, users[id]))
  }

  /** The nil id is not refused: on a table with users it reads one of
      them, the one with the smallest key, whatever that user is. */
  lemma NilIdReadsLeastUser(users: Users, a: Uuid, b: Uuid, rowA: UserRow, rowB: UserRow)
    requires 0 < a < b
    requires users == map[a := rowA, b := rowB]
    ensures GetUserByID(users, 0, None) == Success(User(a, rowA.name, rowA.password))
  {
    assert a in users;
    var k := LeastUserId(users);
    assert k == a by {
      assert a in users;
      assert k <= a;
    }
  }

  /** GetUserByName: the one user with that login, if any. */
  function GetUserByName(users: Users, name: string, fault: Option<Error>): (r: Result<User>)
    requires UniqueUserNames(users)
    ensures r.Success? <==> fault.None? && exists id :: id in users && users[id].name == name
    ensures r.Success? ==> r.value.id in users && r.value.name == name
                           && users[r.value.id] == UserRow(name, r.value.password)
    ensures fault.None? && r.Failure? ==> r.error == UserNotFound
    ensures fault.Some? && !Is(fault.value, RecordNotFound) ==>
              r.Failure? && r.error != UserNotFound && Cause(r.error) == Cause(fault.value)
  {
    if fault.Some? then
      if Is(fault.value, RecordNotFound) then Failure(UserNotFound)
      else Failure(Wrapped(GettingUserByName, fault.value))
    else if exists id :: id in users && users[id].name == name then
      var id :| id in users && users[id].name == name;
      Success(FromDaUser(id, users[id]))
    else Failure(UserNotFound)
  }

  /** CheckTaskOwnership: true iff a task with that id exists and belongs to
      the user. A missing task is "not owned", not an error. */
  function CheckTaskOwnership(tasks: Tasks, userId: Uuid, taskId: Uuid, fault: Option<Error>): (r: Result<bool>)
    ensures r.Success? <==> fault.None?
    ensures r.Success? ==> (r.value <==> taskId in tasks && tasks[taskId].userId == userId)
    ensures fault.Some? ==> r.error.Wrapped? && Cause(r.error) == Cause(fault.value)
  {
    if fault.Some? then Failure(Wrapped(VerifyingTaskOwnership, fault.value))
    else Success(taskId in tasks && tasks[taskId].userId == userId)
  }

  /** The row condition `user_id != ?` of the category check. A NULL owner
      makes the comparison unknown, so such a row does not match. */
  predicate OwnedByOther(category: Category, userId: Uuid) {
    category.owner.Some? && category.owner.value != userId
  }

  /** CheckCategoriesOwnership: an empty list is owned without asking the
      store; otherwise the list is owned iff no listed category belongs to a
      different user. Ids that name no category do not make it fail. */
  function CheckCategoriesOwnership(categories: Categories, userId: Uuid, ids: seq<Uuid>, fault: Option<Error>): (r: Result<bool>)
    ensures |ids| == 0 ==> r == Success(true)
    ensures r.Success? <==> |ids| == 0 || fault.None?
    ensures r == Success(true) ==>
              forall c :: c in ids && c in categories && categories[c].owner.Some? ==> categories[c].owner.value == userId
    ensures fault.None? && (forall c :: c in ids && c in categories ==> categories[c].owner in {None, Some(userId)}) ==>
              r == Success(true)
    ensures |ids| > 0 && fault.Some? ==> r.error.Wrapped? && Cause(r.error) == Cause(fault.value)
  {
    if |ids| == 0 then Success(true)
    else if fault.Some? then Failure(Wrapped(RawOwnershipCheck, fault.value))
    else Success(!exists c :: c in ids && c in categories && OwnedByOther(categories[c], userId))
  }

  /** Two users cannot both own a task: another user's task is never reported
      as owned. */
  lemma TaskOwnedByOneUser(tasks: Tasks, owner: Uuid, other: Uuid, taskId: Uuid, fault: Option<Error>)
    requires taskId in tasks && tasks[taskId].userId == owner && owner != other
    ensures CheckTaskOwnership(tasks, other, taskId, fault) != Success(true)
    ensures fault.None? ==> CheckTaskOwnership(tasks, owner, taskId, fault) == Success(true)
  {
  }

  /** The category check reads the ids as a set (`= ANY(...)`): their order
      and repetition do not matter. */
  lemma CategoriesCheckReadsSet(categories: Categories, userId: Uuid, ids: seq<Uuid>, ids': seq<Uuid>, fault: Option<Error>)
    requires forall c :: c in ids <==> c in ids'
    ensures CheckCategoriesOwnership(categories, userId, ids, fault)
         == CheckCategoriesOwnership(categories, userId, ids', fault)
  {
    if |ids| > 0 {
      assert ids[0] in ids';
    }
    if |ids'| > 0 {
      assert ids'[0] in ids;
    }
  }

  /** Adding ids that name no category does not change the verdict of a
      non-empty check. */
  lemma UnknownIdsDoNotMatter(categories: Categories, userId: Uuid, ids: seq<Uuid>, unknown: seq<Uuid>, fault: Option<Error>)
    requires |ids| > 0
    requires forall c :: c in unknown ==> c !in categories
    ensures CheckCategoriesOwnership(categories, userId, ids + unknown, fault)
         == CheckCategoriesOwnership(categories, userId, ids, fault)
  {
    assert forall c :: c in ids + unknown <==> c in ids || c in unknown;
  }

  /** A single category of another user refuses the whole list: the check is
      never partially true. */
  lemma ForeignCategoryRefusesList(categories: Categories, userId: Uuid, ids: seq<Uuid>, c: Uuid, other: Uuid, fault: Option<Error>)
    requires c in ids && c in categories && categories[c].owner == Some(other) && other != userId
    ensures CheckCategoriesOwnership(categories, userId, ids, fault) != Success(true)
  {
  }
}
